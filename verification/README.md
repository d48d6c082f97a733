# Fallacy Quest — a Dafny model of the game logic

Fallacy Quest is a small desktop quiz. Each question is a short argument split
into clickable phrases. The player names the fallacy the argument commits by
picking one of four radio buttons. They also click the phrases that make up the
fallacy's parts. A round has ten questions, or one in tutorial mode. A correct
answer earns points that decay with time. A wrong answer or a skip costs points
and resets the combo.

This project models the game's logic in `main.go`. Drawing is not modelled.

- `Content` holds the data types: a table entry (`fallacyProps`), a question
  (`fallacy`) and a deck of questions. It also states when a table and a
  question are well formed.
- `Catalog` holds the built-in table of 17 kinds and the 40 built-in questions,
  and proves that they are well formed.
- `FisherYates` models `shuffle`. Each `rand.Intn(i + 1)` result is an oracle
  draw.
- `Choices` models `getFallacyChoices`, and `CatalogChoices` applies it to the
  built-in table.
  - The iteration order of the Go map is an oracle enumeration of its keys.
  - The shuffle of the related list works on the slice stored in the table, so
    the updated table is part of the result.
  - The `related[0]`/`related[1]` panic is a `Failure`.
- `Answer` models the check run when the Check button is released. `RadioGroup`
  models the exclusive selection of `choice.draw`.
- `Passage` models the phrase toggling of `fallacy.check`. It also models the
  line assignment of `calcTexts`, with text widths as a parameter.
- `Game` models the state machine of `start` and `winScreen`. It is a pure
  `Step` function over the events of a frame, with lemmas about scoring, round
  length and the session invariant.

The fourth answer choice is not guaranteed to be unrelated to the question. The
code takes the first key of a shuffled key list that is not already among the
three choices. That key may come from the question's related list.
`CatalogChoices.FourthChoiceMayBeRelated` gives such a case, and the model
follows the code.

## Model

| member | source | states |
|---|---|---|
| Catalog.FallacyNamesOk | main.go:45-63 | The built-in table has 17 keys. Every entry has at least two related kinds, with no repeats and not itself, every one a key, and an `argCount` of at least one. |
| Catalog.InstancesOk | main.go:65-106 | There are 40 built-in questions. Each names a key of the table, and its answer indices are distinct, lie inside the passage and number the kind's `argCount`. No phrase is empty. |
| Catalog.QuestionsOk | main.go:483-489 | The game's deck (the 40 questions plus the tutorial's fixed "Weak Analogy" question) fits the table and has something to draw. |
| CatalogChoices.CatalogOk | main.go:45-106 | The built-in table is well formed with 17 keys, and the built-in deck fits it. |
| Content.DrawQuestion | main.go:483-489 | The question of a reload is the tutorial instance in tutorial mode and otherwise one of the deck's questions. |
| Content.DrawnQuestionOk | main.go:232-238 | Whatever index `randFallacy` draws, with or without the tutorial override, the question fits the table. |
| FisherYates.Swap | main.go:383 | The swap exchanges the two positions, leaves every other position alone and keeps the multiset of elements. |
| FisherYates.ShuffleRounds | main.go:380-385 | Any number of rounds of the loop keeps the length and the multiset of elements. |
| FisherYates.Shuffle | main.go:380-385 | `shuffle` is a permutation: same length, same multiset. |
| FisherYates.ShufflePermutes | main.go:380-385 | A shuffle keeps the set of elements, and a list without repeats stays without repeats. |
| FisherYates.StayDrawsKeepOrder | main.go:380-385 | When round `i` always draws `i`, nothing moves. |
| Choices.EnumerationFrom | main.go:393-397 | For any key there is an order of the map's keys that starts with it, so ranging over the map may yield that key first. |
| Choices.FirstAbsent | main.go:399-411 | The inner search finds the first key not yet chosen. Every key before it is already chosen, and "none" means every key is already chosen. |
| Choices.AddFirstAbsent | main.go:399-411 | The choice list keeps its entries and gains one more exactly when some key is not yet chosen; the added key is such a key. |
| Choices.ShuffledRelated | main.go:389-390 | The related list after the in-place shuffle holds the same kinds as the table entry. |
| Choices.GetFallacyChoices | main.go:387-414 | Choice generation panics exactly when the key is missing or has fewer than two related kinds. |
| Choices.TableOnlyReordered | main.go:389-390 | The only change to the table is a new order of the question's related list, with the same kinds. Keys, other entries and the other fields stay as they were. |
| Choices.ReorderKeepsTableOk | main.go:389-390 | Reordering one entry's related list keeps a well-formed table well formed. |
| Choices.ChoicesSpec | main.go:387-414 | On a well-formed table and an existing key, choice generation succeeds with four distinct keys of the table, and the updated table is still well formed. |
| Choices.ChoicesHoldPicked | main.go:388-391 | The choices contain the question's own kind and the first two kinds of its reordered related list. Both of those come from the original related list. |
| Choices.FourthChoiceFirstAbsent | main.go:392-411 | The fourth choice is the first key of the shuffled key list that is none of the three picked kinds. |
| Choices.FourthChoiceFromOrder | main.go:387-414 | When no shuffle moves anything and the key order starts with the third related kind, the choices are the kind and its first three related kinds. |
| Choices.DrawnChoicesOk | main.go:483-490 | For every question drawn from a deck that fits a well-formed table, choice generation does not panic. It offers four different kinds of the table, the question's own among them. |
| CatalogChoices.FourthChoiceMayBeRelated | main.go:399-411 | With the built-in table, there is a map order under which every choice for "Weak Analogy" is the kind itself or one of its related kinds. |
| Answer.FirstPressed | main.go:544-549 | The check uses the first selected radio button. When no button is selected, the result is none. |
| Answer.Selected | main.go:550-555 | The selected list holds exactly the indices of the active phrases, in increasing order. |
| Answer.RadioVerdict | main.go:544-549 | With no button selected the previous verdict stands; otherwise the verdict is whether the first selected button names the question's kind. |
| Answer.CheckAnswer | main.go:544-570 | A passing check means the selected button names the question's kind (or the previous verdict stands when no button is selected) and every active phrase is an answer phrase. With no button selected and no previous verdict, the check fails. |
| Answer.CheckIsSetEquality | main.go:556-570 | With distinct answer indices, the count-and-membership test passes exactly when the active phrases are the answer phrases. |
| RadioGroup.Draw | main.go:338-360 | After a frame at most one button is selected. The last newly clicked button wins. With no new click, the last selected button stays, and a valid selection is unchanged. |
| Passage.TogglePhrases | main.go:223-229 | A phrase flips exactly when the button was just pressed and the mouse is over it; without a click nothing changes. |
| Passage.ToggleIsSymmetricDifference | main.go:223-229 | A click changes the active set by exactly the phrases under the mouse. |
| Passage.ToggleTwiceRestores | main.go:223-229 | Toggling twice at the same spot restores the selection. |
| Passage.CalcLines | main.go:136-177 | The layout fails exactly when some phrase is empty, where Go panics on `phrase[0]`. Otherwise each phrase is placed by the greedy rule: a new line when it starts with a line break or would reach the width limit, else after the previous phrase and a space. |
| Passage.LinesClimbByAtMostOne | main.go:146-177 | Line numbers never decrease and grow by at most one per phrase. |
| Passage.NoLineSkipped | main.go:157-162 | Every line between the first and the last one used holds a phrase. |
| Passage.LayoutUnique | main.go:146-177 | Two layouts of the same passage under the greedy rule are equal. |
| Passage.OverflowingFirstPhrase | main.go:157-162 | A first phrase wider than the line still opens a new line, so the passage starts on line 1. |
| Game.Points | main.go:572 | The points for a correct answer are never negative and at least a fifth of a non-negative available gain. |
| Game.Start | main.go:469-481 | A new session is playing question 1 of a round of `Total(tutorial)`, with no score, no combo, tutorial step 0, a gain of 10 and the drawn question. |
| Game.Reload | main.go:478-497 | A reload draws the next question, zeroes the timer and the points, clears the verdict, sets the available gain to at least 10 when the score is non-negative, and keeps phase, score, combo, counter and tutorial step. |
| Game.Step | main.go:540-629 | One event: a session that has left stays left; only Back while playing or Menu on the win screen leaves; the tutorial flag never changes; while playing the counter advances by at most one; the round is won exactly by a Skip that passes the round length. |
| Game.PointsBounds | main.go:572 | A correct answer is worth between a fifth of the available gain and all of it. |
| Game.PointsDecay | main.go:572 | The later the answer, the fewer points it earns. |
| Game.ReloadGainGrows | main.go:480 | The gain offered by the next question never shrinks when the combo or the (non-negative) score grows, and is exactly 10 without a combo. |
| Game.StartOk | main.go:469-481 | A new session starts on question 1 with no score, no combo, a gain of 10 and no verdict. |
| Game.StepKeepsInv | main.go:540-629 | Every event keeps the session invariant. Score, points and gain stay non-negative, the counter stays between 1 and the round length, the win screen comes one past the last question, and the tutorial step stops at 46. |
| Game.CheckKeepsInv | main.go:544-591 | Pressing Check keeps the session invariant. |
| Game.SkipKeepsInv | main.go:593-609 | Pressing Skip / Continue keeps the session invariant. |
| Game.StepKeepsQuestionOk | main.go:478-489 | Every question a session shows fits the table, including the ones drawn on Skip and Replay. |
| Game.WrongCheckPenalty | main.go:581-588 | A wrong answer clears the combo and the verdict, and takes a sixteenth off both the available gain and the score. The question, the question counter and the phase stay. |
| Game.CorrectThenContinue | main.go:571-595 | A correct answer followed by Continue raises the combo by one and adds exactly the points the check computed, which lie between a fifth of the available gain and all of it. |
| Game.SkipAfterCorrect | main.go:593-602 | Continue after a correct answer, whatever events came in between, raises the combo by one, adds the points fixed at the check to the score and advances the counter; the round is won exactly when the counter passes the round length. |
| Game.SkipWithoutAnswer | main.go:596-602 | Skipping without a correct answer clears the combo, takes a quarter off the score and advances the counter. The round is won exactly when the counter passes the round length. |
| Game.RunKeepsInv | main.go:540-629 | Any sequence of events keeps the session invariant. |
| Game.RoundLength | main.go:593-609 | In any run from the start without Back, Replay or Menu, the round is won exactly when Skip / Continue has been pressed once per question. Until then the counter is one more than the number of presses. |

## Left out

- Drawing is not modelled: text atlases, colours, hover outlines, phrase bounds and pixel offsets (the `deltaX`/`deltaY`/`maxY` bookkeeping of `calcTexts` and its bounds, main.go:178-183), buttons, and the tutorial's text boxes. Only the line and pen position of each phrase are kept.
- The window and event loop (`win.Update`, `win.Closed`, `resized`) are not modelled. A frame becomes a sequence of events, in the order the loop tests them. The mouse position and button state enter as the hit set of `TogglePhrases`, the click list of `RadioGroup.Draw` and the `Check`/`Skip`/`TutNext` events.
- `button.check` (main.go:283-286) is not modelled: a completed click is an input.
- Time is not modelled: the elapsed time `time.Since` reports is the `Tick` event's parameter.
- Randomness is not modelled: every `rand.Intn` result is an oracle value in range. The uniformity of the draws is not modelled.
- The iteration order of a Go map is not modelled: it is an oracle enumeration of the keys.
- Game.PointsBounds: stated over exact reals rather than float64, so rounding in `possibleGain*(4/(timer+5)+.2)` is not modelled.
- Game.WrongCheckPenalty: the sixteenth deductions are exact real arithmetic, not float64.
- Game.SkipWithoutAnswer: the quarter deduction is exact real arithmetic, not float64.
- The main menu (main.go:416-465) is not modelled. Neither is the win screen's drawing: only its Menu / Replay decision is modelled, as the `Menu` and `Replay` events.
- Label formatting of the choices (`fullName (argCount)`, main.go:491-494), `setCenter` and `calcChoice` are presentation only.
- `Game` does not hold the radio buttons: the `Check` event carries them as a free parameter. So the reset of every button to unselected that `newChoice` performs on each reload (main.go:312-320, 495) is not part of the session, and nothing ties the buttons to the four generated choices. The contracts about `Check` hold for any buttons, so they hold for those.
- `Game.Reload` does not run choice generation (main.go:490) or the layout (main.go:236, 488), and the session keeps neither the table nor the choice list, so the reordering of a related list is not carried to the next question. These calls cannot panic on the game's data: `Choices.DrawnChoicesOk` shows choice generation succeeds for every drawn question, `Choices.ReorderKeepsTableOk` that the reordered table stays well formed for the next one, and `Passage.CalcLines` fails only on an empty phrase, which `InstanceOk` rules out for every question (`Catalog.QuestionsOk`).
- The 46 tutorial messages are not modelled: only the step counter they are selected by is.
- Resize (`goto resize`, main.go:496-499) is modelled only through its effect on the game state, which is clearing `correct`. The re-layout itself is `Passage.CalcLines`.
- The phrase selection is the `Check` event's parameter rather than part of the session, so the clearing of selections when a resize re-runs `calcTexts` is not modelled.
- Passage.CalcLines: the line width limit (`win.Bounds().W()/2 - winX*200/origX`) and the text widths from the font are parameters, not computed from the window or `basicfont`.
- The `mask` field of `fallacy` only suppresses outlines when drawing, so it has no counterpart.
