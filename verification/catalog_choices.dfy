/**
 Choice generation applied to the built-in catalogue.
 */
module CatalogChoices {

  import opened Wrappers
  import opened Seqs
  import opened Content
  import opened Catalog
  import opened FisherYates
  import opened Choices

  /** The built-in table and deck satisfy everything the game relies on. */
  lemma CatalogOk()
    ensures TableOk(FallacyNames) && |FallacyNames.Keys| == 17
    ensures DeckOk(FallacyNames, Questions) && |Questions.questions| == QuestionCount
  {
    FallacyNamesOk();
    QuestionsOk();
  }

  /** The choices for "Weak Analogy" when no shuffle moves anything and the map
      yields its keys in `order`. */
  function AnalogyChoices(order: seq<string>): Result<Outcome, Panic>
    requires Enumerates(order, FallacyNames)
  {
    AnalogyEntry();
    GetFallacyChoices(FallacyNames, "analogy", StayDraws(5), order, StayDraws(|order|), StayDraws(4))
  }

  /** The fourth choice is the first shuffled key not yet chosen, and nothing keeps it
      out of the related list: when the map yields "authority" first, the choices for
      "Weak Analogy" are the question's own kind and three of its related kinds
      ("slippery", "accident" and "authority" open its related list). */
  lemma FourthChoiceMayBeRelated()
    ensures exists order ::
      && Enumerates(order, FallacyNames) && |order| >= 1 && order[0] == "authority"
      && AnalogyChoices(order).Success?
      && AnalogyChoices(order).value.choices == ["analogy", "slippery", "accident", "authority"]
  {
    AnalogyEntry();
    var order := EnumerationFrom(FallacyNames, "authority");
    FourthChoiceFromOrder(FallacyNames, "analogy", order);
  }
}
