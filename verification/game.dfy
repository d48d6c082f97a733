/**
 The session state machine of `start` and `winScreen` in main.go: score, combo,
 the gain still available for the current question, the question counter, and
 the tutorial step. Frames of the event loop become a sequence of events; the
 elapsed time, the mouse clicks and every random draw are event parameters.
 */
module Game {

  import opened Content
  import opened Answer

  /** Elapsed time in seconds: `time.Since` never reports a negative duration. */
  type Seconds = r: real | r >= 0.0

  /** Which screen the session is on: a question, the win screen, or back at the menu. */
  datatype Phase = Playing | Won | Left

  datatype Session = Session(
    phase: Phase,
    tutorial: bool,
    score: real,
    combo: nat,
    count: nat,
    total: nat,
    tutStep: nat,
    question: Fallacy,
    timer: Seconds,
    possibleGain: real,
    pointsScored: real,
    correct: bool)

  /** What can happen in a frame. `Skip` and `Replay` carry the index drawn for the
      next question; `Check` carries the radio buttons and the active phrases at the
      moment the Check button is released. */
  datatype Event =
    | Tick(dt: Seconds)
    | Check(radios: seq<Radio>, active: seq<bool>)
    | Skip(pick: nat)
    | Resize
    | TutNext
    | Back
    | Replay(pick: nat)
    | Menu

  /** A drawn index is within the instance list, as `rand.Intn(len(fallacies))` is. */
  predicate ValidEvent(d: Deck, e: Event)
  {
    match e
    case Skip(pick) => pick < |d.questions|
    case Replay(pick) => pick < |d.questions|
    case _ => true
  }

  /** Questions per round: ten, or one in the tutorial. */
  function Total(tutorial: bool): nat
  {
    if tutorial then 1 else 10
  }

  /** The last tutorial step with a Next button; the counter stops one past it. */
  const LastTutStep: nat := 45

  function Max(a: real, b: real): real
  {
    if a >= b then a else b
  }

  /** Points for a correct answer: the available gain scaled by a factor that starts
      at 1 and decays towards 1/5 as the timer runs. */
  function Points(possibleGain: real, timer: Seconds): (r: real)
    ensures r >= 0.0
    ensures possibleGain >= 0.0 ==> r >= possibleGain / 5.0
  {
    Max(possibleGain * (4.0 / (timer + 5.0) + 0.2), 0.0)
  }

  /** The `reload` label: a fresh question, the timer at zero and the available gain
      raised by the combo and the current score. */
  function Reload(d: Deck, s: Session, pick: nat): (r: Session)
    requires pick < |d.questions|
    ensures r.timer == 0.0 && r.pointsScored == 0.0 && !r.correct
    ensures r.question == DrawQuestion(d, pick, s.tutorial)
    ensures s.score >= 0.0 ==> r.possibleGain >= 10.0
    ensures r.phase == s.phase && r.tutorial == s.tutorial && r.score == s.score && r.combo == s.combo
    ensures r.count == s.count && r.total == s.total && r.tutStep == s.tutStep
  {
    s.(timer := 0.0,
       possibleGain := 10.0 + (s.combo as real) * s.score / 2.0,
       pointsScored := 0.0,
       question := DrawQuestion(d, pick, s.tutorial),
       correct := false)
  }

  /** The `reset` label followed by `reload`. */
  function Start(d: Deck, tutorial: bool, pick: nat): (s: Session)
    requires pick < |d.questions|
    ensures s.phase == Playing && s.tutorial == tutorial && s.total == Total(tutorial)
    ensures s.count == 1 && s.score == 0.0 && s.combo == 0 && s.tutStep == 0
    ensures s.possibleGain == 10.0 && s.question == DrawQuestion(d, pick, tutorial)
  {
    var s := Session(Playing, tutorial, 0.0, 0, 1, Total(tutorial), 0, d.tutorial, 0.0, 0.0, 0.0, false);
    Reload(d, s, pick)
  }

  /** One event. */
  function Step(d: Deck, s: Session, e: Event): (r: Session)
    requires ValidEvent(d, e)
    ensures s.phase == Left ==> r == s
    ensures r.phase == Left <==> s.phase == Left || (s.phase == Playing && e.Back?) || (s.phase == Won && e.Menu?)
    ensures r.tutorial == s.tutorial
    ensures s.phase == Playing && r.phase != Left ==> s.count <= r.count <= s.count + 1
    ensures s.phase == Playing && r.phase == Won <==> s.phase == Playing && e.Skip? && s.count + 1 > s.total
  {
    match s.phase
    case Left => s
    case Won =>
      (match e
       case Replay(pick) => Start(d, s.tutorial, pick)
       case Menu => s.(phase := Left)
       case _ => s)
    case Playing =>
      match e
      case Tick(dt) => s.(timer := s.timer + dt)
      case Check(radios, active) =>
        if CheckAnswer(radios, s.question.name, active, s.question.ans, s.correct) then
          s.(correct := true, pointsScored := Points(s.possibleGain, s.timer))
        else
          s.(correct := false,
             combo := 0,
             possibleGain := s.possibleGain - s.possibleGain / 16.0,
             score := Max(s.score - s.score / 16.0, 0.0))
      case Skip(pick) =>
        var s' := if s.correct then s.(combo := s.combo + 1, score := s.score + s.pointsScored)
                  else s.(combo := 0, score := s.score - s.score / 4.0);
        var s'' := s'.(count := s'.count + 1);
        if s''.count > s''.total then s''.(phase := Won) else Reload(d, s'', pick)
      case Resize => s.(correct := false)
      case TutNext => if s.tutorial && s.tutStep <= LastTutStep then s.(tutStep := s.tutStep + 1) else s
      case Back => s.(phase := Left)
      case Replay(_) => s
      case Menu => s
  }

  /** The facts every reachable session satisfies. */
  predicate Inv(s: Session)
  {
    && s.score >= 0.0
    && s.possibleGain > 0.0
    && s.pointsScored >= 0.0
    && s.total == Total(s.tutorial)
    && (s.phase == Playing ==> 1 <= s.count <= s.total)
    && (s.phase == Won ==> s.count == s.total + 1)
    && s.tutStep <= LastTutStep + 1
  }

  /** The decay factor lies in (1/5, 1]; points are between a fifth of the available
      gain and all of it. */
  lemma PointsBounds(possibleGain: real, timer: Seconds)
    requires possibleGain >= 0.0
    ensures possibleGain / 5.0 <= Points(possibleGain, timer) <= possibleGain
  {
    var f := 4.0 / (timer + 5.0);
    assert 0.0 < f <= 0.8 by {
      assert f * (timer + 5.0) == 4.0;
    }
    assert possibleGain * (f + 0.2) >= possibleGain * 0.2;
    assert possibleGain * (f + 0.2) <= possibleGain * 1.0;
  }

  /** The longer the player takes, the fewer points a correct answer earns. */
  lemma PointsDecay(possibleGain: real, t1: Seconds, t2: Seconds)
    requires t1 <= t2 && possibleGain >= 0.0
    ensures Points(possibleGain, t2) <= Points(possibleGain, t1)
  {
    var f1 := 4.0 / (t1 + 5.0);
    var f2 := 4.0 / (t2 + 5.0);
    assert f2 <= f1 by {
      assert f1 * (t1 + 5.0) == 4.0 && f2 * (t2 + 5.0) == 4.0;
      assert f2 * (t1 + 5.0) <= f2 * (t2 + 5.0);
    }
    assert possibleGain * (f2 + 0.2) <= possibleGain * (f1 + 0.2);
    assert Points(possibleGain, t1) == Max(possibleGain * (f1 + 0.2), 0.0);
    assert Points(possibleGain, t2) == Max(possibleGain * (f2 + 0.2), 0.0);
  }

  /** The combo is a multiplier on the reward: the gain offered by the next question
      grows with both the combo and the score, and without a combo it is the base 10. */
  lemma ReloadGainGrows(d: Deck, s1: Session, s2: Session, pick: nat)
    requires pick < |d.questions|
    requires 0.0 <= s1.score <= s2.score && s1.combo <= s2.combo
    ensures Reload(d, s1, pick).possibleGain <= Reload(d, s2, pick).possibleGain
    ensures s1.combo == 0 ==> Reload(d, s1, pick).possibleGain == 10.0
  {
    var c1 := s1.combo as real;
    var c2 := s2.combo as real;
    var g1 := c1 * s1.score;
    var g2 := c2 * s2.score;
    assert g1 <= c2 * s1.score <= g2;
    assert g1 / 2.0 <= g2 / 2.0;
    assert Reload(d, s1, pick).possibleGain == 10.0 + g1 / 2.0;
    assert Reload(d, s2, pick).possibleGain == 10.0 + g2 / 2.0;
  }

  lemma StartOk(d: Deck, tutorial: bool, pick: nat)
    requires pick < |d.questions|
    ensures var s := Start(d, tutorial, pick);
      && Inv(s) && s.phase == Playing && s.count == 1 && s.score == 0.0 && s.combo == 0
      && s.possibleGain == 10.0 && !s.correct
  {
  }

  /** Every event keeps the session invariant. */
  lemma StepKeepsInv(d: Deck, s: Session, e: Event)
    requires Inv(s) && ValidEvent(d, e)
    ensures Inv(Step(d, s, e))
  {
    match s.phase
    case Left =>
    case Won =>
      if e.Replay? {
        StartOk(d, s.tutorial, e.pick);
      }
    case Playing =>
      match e
      case Check(radios, active) => CheckKeepsInv(d, s, radios, active);
      case Skip(pick) => SkipKeepsInv(d, s, pick);
      case _ =>
  }

  lemma CheckKeepsInv(d: Deck, s: Session, radios: seq<Radio>, active: seq<bool>)
    requires Inv(s) && s.phase == Playing
    ensures Inv(Step(d, s, Check(radios, active)))
  {
    PointsBounds(s.possibleGain, s.timer);
  }

  lemma SkipKeepsInv(d: Deck, s: Session, pick: nat)
    requires Inv(s) && s.phase == Playing && pick < |d.questions|
    ensures Inv(Step(d, s, Skip(pick)))
  {
    var s' := if s.correct then s.(combo := s.combo + 1, score := s.score + s.pointsScored)
              else s.(combo := 0, score := s.score - s.score / 4.0);
    assert s'.score >= 0.0;
    assert (s'.combo as real) * s'.score >= 0.0;
    var s'' := s'.(count := s'.count + 1);
    if s''.count <= s''.total {
      assert Step(d, s, Skip(pick)) == Reload(d, s'', pick);
    }
  }

  /** Every question a session shows fits the table: the first one, and each one
      drawn on Skip or Replay. */
  lemma StepKeepsQuestionOk(t: Table, d: Deck, s: Session, e: Event)
    requires DeckOk(t, d) && ValidEvent(d, e) && InstanceOk(t, s.question)
    ensures InstanceOk(t, Step(d, s, e).question)
  {
    match e
    case Skip(pick) => DrawnQuestionOk(t, d, pick, s.tutorial);
    case Replay(pick) => DrawnQuestionOk(t, d, pick, s.tutorial);
    case _ =>
  }

  /** A wrong answer costs the combo and a sixteenth of both the available gain and
      the score. */
  lemma WrongCheckPenalty(d: Deck, s: Session, radios: seq<Radio>, active: seq<bool>)
    requires Inv(s) && s.phase == Playing
    requires !CheckAnswer(radios, s.question.name, active, s.question.ans, s.correct)
    ensures var t := Step(d, s, Check(radios, active));
      && t.combo == 0 && !t.correct
      && t.possibleGain == s.possibleGain * 15.0 / 16.0
      && t.score == s.score * 15.0 / 16.0
      && t.count == s.count && t.phase == Playing && t.question == s.question
  {
  }

  /** A correct answer followed by Continue raises the combo by one and the score by
      between a fifth of the available gain and all of it. */
  lemma CorrectThenContinue(d: Deck, s: Session, radios: seq<Radio>, active: seq<bool>, pick: nat)
    requires Inv(s) && s.phase == Playing && pick < |d.questions|
    requires CheckAnswer(radios, s.question.name, active, s.question.ans, s.correct)
    ensures var t := Step(d, Step(d, s, Check(radios, active)), Skip(pick));
      && t.combo == s.combo + 1
      && t.score == s.score + Points(s.possibleGain, s.timer)
      && s.score + s.possibleGain / 5.0 <= t.score <= s.score + s.possibleGain
  {
    PointsBounds(s.possibleGain, s.timer);
  }

  /** Continue after a correct answer, whatever happened since the check: the combo
      grows by one, the points the check fixed are added, and the counter advances. */
  lemma SkipAfterCorrect(d: Deck, s: Session, pick: nat)
    requires Inv(s) && s.phase == Playing && s.correct && pick < |d.questions|
    ensures var t := Step(d, s, Skip(pick));
      && t.combo == s.combo + 1
      && t.score == s.score + s.pointsScored
      && t.count == s.count + 1
      && (t.phase == Won <==> s.count + 1 > s.total)
  {
  }

  /** Skipping without a correct answer costs the combo and a quarter of the score. */
  lemma SkipWithoutAnswer(d: Deck, s: Session, pick: nat)
    requires s.phase == Playing && !s.correct && pick < |d.questions|
    ensures var t := Step(d, s, Skip(pick));
      && t.combo == 0
      && t.score == s.score * 3.0 / 4.0
      && t.count == s.count + 1
      && (t.phase == Won <==> s.count + 1 > s.total)
  {
  }

  /** The events of a sequence, one after the other, from session `s`. */
  function Run(d: Deck, s: Session, es: seq<Event>): Session
    requires forall i :: 0 <= i < |es| ==> ValidEvent(d, es[i])
    decreases |es|
  {
    if |es| == 0 then s else Step(d, Run(d, s, es[..|es| - 1]), es[|es| - 1])
  }

  /** How many of the events are Skip / Continue presses. */
  function Skips(es: seq<Event>): nat
  {
    if |es| == 0 then 0 else Skips(es[..|es| - 1]) + (if es[|es| - 1].Skip? then 1 else 0)
  }

  /** An event that neither leaves the session nor restarts it. */
  predicate InSession(e: Event)
  {
    !e.Back? && !e.Replay? && !e.Menu?
  }

  /** Any run keeps the invariant. */
  lemma {:induction false} RunKeepsInv(d: Deck, s: Session, es: seq<Event>)
    requires Inv(s) && forall i :: 0 <= i < |es| ==> ValidEvent(d, es[i])
    ensures Inv(Run(d, s, es))
    decreases |es|
  {
    if |es| > 0 {
      RunKeepsInv(d, s, es[..|es| - 1]);
      StepKeepsInv(d, Run(d, s, es[..|es| - 1]), es[|es| - 1]);
    }
  }

  /** A round is won exactly when the player has pressed Skip / Continue once per
      question; until then the counter shows one more than the presses so far. */
  lemma {:induction false} RoundLength(d: Deck, tutorial: bool, pick: nat, es: seq<Event>)
    requires pick < |d.questions|
    requires forall i :: 0 <= i < |es| ==> ValidEvent(d, es[i]) && InSession(es[i])
    ensures var s := Run(d, Start(d, tutorial, pick), es);
      && s.phase != Left && s.tutorial == tutorial
      && (s.phase == Won <==> Skips(es) >= Total(tutorial))
      && (s.phase == Playing ==> s.count == 1 + Skips(es))
    decreases |es|
  {
    if |es| > 0 {
      var front := es[..|es| - 1];
      RoundLength(d, tutorial, pick, front);
      var p := Run(d, Start(d, tutorial, pick), front);
      StartOk(d, tutorial, pick);
      RunKeepsInv(d, Start(d, tutorial, pick), front);
      assert Run(d, Start(d, tutorial, pick), es) == Step(d, p, es[|es| - 1]);
      assert Skips(es) == Skips(front) + (if es[|es| - 1].Skip? then 1 else 0);
    }
  }
}
