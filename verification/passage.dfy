/**
 The question passage (`fallacy` in main.go): which phrases are active, how a
 click toggles them (`fallacy.check`), and on which line `calcTexts` puts each
 phrase. Text widths come from the font library and are a parameter here.
 */
module Passage {

  import opened Wrappers

  /** The indices of the active phrases. */
  ghost function ActiveSet(active: seq<bool>): set<nat>
  {
    set i: nat | i < |active| && active[i]
  }

  /** One frame of `fallacy.check`: a left click flips every phrase whose box
      contains the mouse (`hit`), and leaves the others alone. */
  function TogglePhrases(active: seq<bool>, hit: seq<bool>, justPressed: bool): (r: seq<bool>)
    requires |hit| == |active|
    ensures |r| == |active|
    ensures !justPressed ==> r == active
    ensures forall i :: 0 <= i < |r| ==> (r[i] != active[i] <==> justPressed && hit[i])
  {
    seq(|active|, i requires 0 <= i < |active| => if hit[i] && justPressed then !active[i] else active[i])
  }

  /** A click changes the selection by exactly the phrases under the mouse: those
      that were active become inactive and the others become active. */
  lemma ToggleIsSymmetricDifference(active: seq<bool>, hit: seq<bool>)
    requires |hit| == |active|
    ensures var h := ActiveSet(hit);
      ActiveSet(TogglePhrases(active, hit, true)) == (ActiveSet(active) - h) + (h - ActiveSet(active))
  {
    var r := TogglePhrases(active, hit, true);
    var h := ActiveSet(hit);
    forall i: nat ensures i in ActiveSet(r) <==> i in (ActiveSet(active) - h) + (h - ActiveSet(active)) {
      if i < |active| {
        assert r[i] == (active[i] != hit[i]);
      }
    }
  }

  /** Clicking the same spot twice restores the selection. */
  lemma ToggleTwiceRestores(active: seq<bool>, hit: seq<bool>, justPressed: bool)
    requires |hit| == |active|
    ensures TogglePhrases(TogglePhrases(active, hit, justPressed), hit, justPressed) == active
  {
  }

  /** Where `calcTexts` puts a phrase: its line number, the pen position where it
      starts (`lineX`, before the 1.5 scaling), and the text drawn, without a
      leading line break. */
  datatype Placement = Placement(line: nat, x: real, text: string)

  /** The phrase as drawn: a leading '\n' only forces a line break and is dropped. */
  function Stripped(phrase: string): string
    requires |phrase| > 0
  {
    if phrase[0] == '\n' then phrase[1..] else phrase
  }

  /** What precedes a phrase: nothing for the first, else its predecessor's placement. */
  function Previous(ps: seq<Placement>, i: nat): Option<Placement>
    requires i <= |ps|
  {
    if i == 0 then None else Some(ps[i - 1])
  }

  /** The pen position when a phrase is reached after `prev`: the end of `prev` plus
      one space, unless the line is still empty (the pen at 0). */
  function Pen(prev: Option<Placement>, width: string -> real, spacing: real): real
  {
    match prev
    case None => 0.0
    case Some(q) =>
      var end := q.x + width(q.text);
      if end > 0.0 then end + spacing else end
  }

  /** The line the pen is on after `prev` (line 0 before the first phrase). */
  function PenLine(prev: Option<Placement>): nat
  {
    match prev
    case None => 0
    case Some(q) => q.line
  }

  /** `p` is where the greedy rule puts `phrase` after `prev`: the phrase opens a new
      line exactly when it starts with '\n' or would reach `limit` from the pen; a
      phrase that opens a line starts at 0, any other starts at the pen, ends before
      `limit`, and stays on the line of its predecessor. */
  ghost predicate PlacedAfter(prev: Option<Placement>, phrase: string, p: Placement,
                              width: string -> real, spacing: real, limit: real)
  {
    && |phrase| > 0
    && p.text == Stripped(phrase)
    && var opens := phrase[0] == '\n' || Pen(prev, width, spacing) + width(p.text) >= limit;
    && (opens ==> p.line == PenLine(prev) + 1 && p.x == 0.0)
    && (!opens ==> p.line == PenLine(prev) && p.x == Pen(prev, width, spacing) && p.x + width(p.text) < limit)
  }

  /** `ps` places every phrase of `phrases` by the greedy rule, in order. */
  ghost predicate LaidOut(phrases: seq<string>, width: string -> real, spacing: real, limit: real,
                          ps: seq<Placement>)
  {
    && |ps| == |phrases|
    && forall i {:trigger Previous(ps, i)} :: 0 <= i < |ps| ==>
         PlacedAfter(Previous(ps, i), phrases[i], ps[i], width, spacing, limit)
  }

  /** `calcTexts`, reduced to the choice of line for each phrase. An empty phrase
      makes the Go code panic at `phrase[0]`; that is the `None` result. */
  method CalcLines(phrases: seq<string>, width: string -> real, spacing: real, limit: real)
    returns (r: Option<seq<Placement>>)
    requires spacing >= 0.0 && forall s :: width(s) >= 0.0
    ensures r.None? <==> exists i :: 0 <= i < |phrases| && |phrases[i]| == 0
    ensures r.Some? ==> LaidOut(phrases, width, spacing, limit, r.value)
    ensures r.Some? ==> forall i :: 0 <= i < |r.value| ==> r.value[i].x >= 0.0
  {
    var curLine: nat := 0;
    var lineX := 0.0;
    var ps: seq<Placement> := [];
    var i := 0;
    while i < |phrases|
      invariant 0 <= i <= |phrases| && |ps| == i
      invariant forall j {:trigger Previous(ps, j)} :: 0 <= j < i ==>
        PlacedAfter(Previous(ps, j), phrases[j], ps[j], width, spacing, limit)
      invariant curLine == PenLine(Previous(ps, i))
      invariant lineX == (if i == 0 then 0.0 else ps[i - 1].x + width(ps[i - 1].text))
      invariant forall j :: 0 <= j < i ==> ps[j].x >= 0.0
      invariant forall j :: 0 <= j < i ==> |phrases[j]| > 0
    {
      var phrase := phrases[i];
      if |phrase| == 0 {
        return None;
      }
      if lineX > 0.0 {
        lineX := lineX + spacing;
      }
      var newLine := false;
      if phrase[0] == '\n' {
        phrase := phrase[1..];
        newLine := true;
      }
      if lineX + width(phrase) >= limit {
        newLine := true;
      }
      if newLine {
        curLine := curLine + 1;
        lineX := 0.0;
      }
      var p := Placement(curLine, lineX, phrase);
      assert PlacedAfter(Previous(ps, i), phrases[i], p, width, spacing, limit);
      PlacedPrefixGrows(phrases, width, spacing, limit, ps, p);
      ps := ps + [p];
      lineX := lineX + width(phrase);
      i := i + 1;
    }
    return Some(ps);
  }

  /** Placing the next phrase extends a correctly placed prefix. */
  lemma PlacedPrefixGrows(phrases: seq<string>, width: string -> real, spacing: real, limit: real,
                          ps: seq<Placement>, p: Placement)
    requires |ps| < |phrases|
    requires forall j {:trigger Previous(ps, j)} :: 0 <= j < |ps| ==>
      PlacedAfter(Previous(ps, j), phrases[j], ps[j], width, spacing, limit)
    requires PlacedAfter(Previous(ps, |ps|), phrases[|ps|], p, width, spacing, limit)
    ensures forall j {:trigger Previous(ps + [p], j)} :: 0 <= j < |ps| + 1 ==>
      PlacedAfter(Previous(ps + [p], j), phrases[j], (ps + [p])[j], width, spacing, limit)
  {
    var qs := ps + [p];
    forall j | 0 <= j < |qs|
      ensures PlacedAfter(Previous(qs, j), phrases[j], qs[j], width, spacing, limit)
    {
      if j < |ps| {
        assert Previous(qs, j) == Previous(ps, j) && qs[j] == ps[j];
      } else {
        assert Previous(qs, j) == Previous(ps, j) && qs[j] == p;
      }
    }
  }

  /** Lines never go back, and grow by at most one from one phrase to the next. */
  lemma {:induction false} LinesClimbByAtMostOne(phrases: seq<string>, width: string -> real,
                                                 spacing: real, limit: real, ps: seq<Placement>)
    requires LaidOut(phrases, width, spacing, limit, ps)
    ensures forall i, j :: 0 <= i <= j < |ps| ==> ps[i].line <= ps[j].line <= ps[i].line + (j - i)
    ensures forall i :: 0 <= i < |ps| ==> ps[i].line <= i + 1
  {
    forall i, j | 0 <= i <= j < |ps| ensures ps[i].line <= ps[j].line <= ps[i].line + (j - i) {
      ClimbBetween(phrases, width, spacing, limit, ps, i, j);
    }
    forall i | 0 <= i < |ps| ensures ps[i].line <= i + 1 {
      ClimbBetween(phrases, width, spacing, limit, ps, 0, i);
      assert PlacedAfter(Previous(ps, 0), phrases[0], ps[0], width, spacing, limit);
    }
  }

  lemma {:induction false} ClimbBetween(phrases: seq<string>, width: string -> real,
                                        spacing: real, limit: real, ps: seq<Placement>, i: nat, j: nat)
    requires LaidOut(phrases, width, spacing, limit, ps)
    requires i <= j < |ps|
    ensures ps[i].line <= ps[j].line <= ps[i].line + (j - i)
    decreases j - i
  {
    if i < j {
      ClimbBetween(phrases, width, spacing, limit, ps, i, j - 1);
      assert PlacedAfter(Previous(ps, j), phrases[j], ps[j], width, spacing, limit);
    }
  }

  /** Every line between the first and the last one used holds some phrase. */
  lemma {:induction false} NoLineSkipped(phrases: seq<string>, width: string -> real,
                                         spacing: real, limit: real, ps: seq<Placement>, line: nat)
    requires LaidOut(phrases, width, spacing, limit, ps)
    requires |ps| > 0 && ps[0].line <= line <= ps[|ps| - 1].line
    ensures exists i :: 0 <= i < |ps| && ps[i].line == line
    decreases |ps|
  {
    var n := |ps| - 1;
    if ps[n].line != line {
      var prefix := ps[..n];
      assert n > 0;
      assert PlacedAfter(Previous(ps, n), phrases[n], ps[n], width, spacing, limit);
      assert LaidOut(phrases[..n], width, spacing, limit, prefix) by {
        forall k | 0 <= k < n
          ensures PlacedAfter(Previous(prefix, k), phrases[..n][k], prefix[k], width, spacing, limit)
        {
          assert Previous(prefix, k) == Previous(ps, k);
        }
      }
      NoLineSkipped(phrases[..n], width, spacing, limit, prefix, line);
      var i :| 0 <= i < n && prefix[i].line == line;
      assert ps[i].line == line;
    }
  }

  /** The greedy rule leaves no freedom: there is only one layout of a passage. */
  lemma {:induction false} LayoutUnique(phrases: seq<string>, width: string -> real, spacing: real,
                                        limit: real, ps: seq<Placement>, qs: seq<Placement>)
    requires LaidOut(phrases, width, spacing, limit, ps)
    requires LaidOut(phrases, width, spacing, limit, qs)
    ensures ps == qs
  {
    var k := 0;
    while k < |ps|
      invariant k <= |ps| && ps[..k] == qs[..k]
    {
      assert Previous(ps, k) == Previous(qs, k) by {
        if k > 0 {
          assert ps[k - 1] == ps[..k][k - 1] && qs[k - 1] == qs[..k][k - 1];
        }
      }
      assert PlacedAfter(Previous(ps, k), phrases[k], ps[k], width, spacing, limit);
      assert PlacedAfter(Previous(qs, k), phrases[k], qs[k], width, spacing, limit);
      assert ps[..k + 1] == ps[..k] + [ps[k]] && qs[..k + 1] == qs[..k] + [qs[k]];
      k := k + 1;
    }
    assert ps == ps[..k] && qs == qs[..k];
  }

  /** A first phrase too wide for the line still opens a new line, so the passage
      starts on line 1 rather than line 0. */
  lemma OverflowingFirstPhrase(phrases: seq<string>, width: string -> real, spacing: real,
                               limit: real, ps: seq<Placement>)
    requires LaidOut(phrases, width, spacing, limit, ps)
    requires |phrases| > 0 && |phrases[0]| > 0 && width(Stripped(phrases[0])) >= limit
    ensures ps[0].line == 1 && ps[0].x == 0.0
  {
    assert PlacedAfter(Previous(ps, 0), phrases[0], ps[0], width, spacing, limit);
  }
}
