/**
 The static content of Fallacy Quest: the table of fallacy kinds (`fallacyNames`)
 and the question instances (`fallacies`), together with the well-formedness
 facts that the rest of the game silently relies on.
 */
module Content {

  import opened Seqs

  /** What the table stores per key: display name, number of phrases to click,
      and the confusable kinds offered as wrong answers. */
  datatype FallacyProps = FallacyProps(fullName: string, argCount: int, related: seq<string>)

  /** One question: the key of its kind, the passage split into clickable phrases,
      and the indices of the phrases that make up the correct answer. */
  datatype Fallacy = Fallacy(name: string, phrases: seq<string>, ans: seq<int>)

  type Table = map<string, FallacyProps>

  /** The properties of one table entry that choice generation depends on:
      at least two related kinds (the code reads `related[0]` and `related[1]`),
      no repetitions, no entry listing itself, every related kind a key,
      and at least one phrase to click. */
  predicate EntryOk(t: Table, k: string)
    requires k in t
  {
    && |t[k].related| >= 2
    && Distinct(t[k].related)
    && k !in t[k].related
    && (forall r :: r in t[k].related ==> r in t)
    && t[k].argCount >= 1
  }

  /** Every entry is well formed, and there are enough keys to fill four choices. */
  predicate TableOk(t: Table)
  {
    && |t.Keys| >= 4
    && forall k {:trigger EntryOk(t, k)} :: k in t ==> EntryOk(t, k)
  }

  /** A question fits the table: its kind is a key, its answer indices are distinct
      positions in the passage, their number is the kind's `argCount` (the "(n)"
      shown next to each choice), and no phrase is empty (layout reads `phrase[0]`). */
  predicate InstanceOk(t: Table, f: Fallacy)
  {
    && f.name in t
    && Distinct(f.ans)
    && (forall i :: 0 <= i < |f.ans| ==> 0 <= f.ans[i] < |f.phrases|)
    && |f.ans| == t[f.name].argCount
    && (forall p :: p in f.phrases ==> |p| > 0)
  }

  /** Every instance of a list fits the table. */
  predicate AllFit(t: Table, fs: seq<Fallacy>)
  {
    forall i :: 0 <= i < |fs| ==> InstanceOk(t, fs[i])
  }

  lemma AllFitAppend(t: Table, a: seq<Fallacy>, b: seq<Fallacy>)
    requires AllFit(t, a) && AllFit(t, b)
    ensures AllFit(t, a + b)
  {
    forall i | 0 <= i < |a + b| ensures InstanceOk(t, (a + b)[i]) {
      if i >= |a| {
        assert (a + b)[i] == b[i - |a|];
      }
    }
  }

  /** The questions a round draws from, and the one the tutorial always shows. */
  datatype Deck = Deck(questions: seq<Fallacy>, tutorial: Fallacy)

  /** There is something to draw, and every question of the deck fits the table. */
  predicate DeckOk(t: Table, d: Deck)
  {
    |d.questions| >= 1 && AllFit(t, d.questions) && InstanceOk(t, d.tutorial)
  }

  /** The question of a round: the instance at the drawn index (`rand.Intn(len(fallacies))`
      in `randFallacy`), replaced wholesale by the tutorial instance in tutorial mode. */
  function DrawQuestion(d: Deck, pick: nat, tutorial: bool): (f: Fallacy)
    requires pick < |d.questions|
    ensures tutorial ==> f == d.tutorial
    ensures !tutorial ==> f in d.questions
  {
    if tutorial then d.tutorial else d.questions[pick]
  }

  /** Whatever index is drawn, the question fits the table. */
  lemma DrawnQuestionOk(t: Table, d: Deck, pick: nat, tutorial: bool)
    requires DeckOk(t, d) && pick < |d.questions|
    ensures InstanceOk(t, DrawQuestion(d, pick, tutorial))
  {
  }
}

/**
 The table and question instances themselves, kept apart from the definitions
 above so that proofs about arbitrary tables do not carry the literal data.
 */
module Catalog {

  import opened Seqs
  import opened Content

  const FallacyNames: Table := map[
    "hominem"       := FallacyProps("Argumentum ad Hominem", 1, ["straw", "emotion"]),
    "straw"         := FallacyProps("Straw Man", 2, ["hominem", "emotion"]),
    "emotion"       := FallacyProps("Appeal to Emotion", 1, ["hominem", "straw"]),
    "analogy"       := FallacyProps("Weak Analogy", 2, ["slippery", "accident", "authority", "popularity", "hasty"]),
    "hasty"         := FallacyProps("Hasty Generalization", 2, ["accident", "analogy", "authority", "popularity"]),
    "accident"      := FallacyProps("Accident", 2, ["hasty", "analogy", "authority", "popularity"]),
    "post"          := FallacyProps("Post Hoc Ergo Propter Hoc", 2, ["cum", "slippery", "popularity", "authority"]),
    "cum"           := FallacyProps("Cum Hoc Ergo Propter Hoc", 2, ["post", "slippery", "popularity", "authority"]),
    "slippery"      := FallacyProps("Slippery Slope", 2, ["cum", "post", "accident", "authority", "popularity"]),
    "authority"     := FallacyProps("Fallacious Appeal to Authority", 1, ["popularity", "cum", "post", "accident"]),
    "popularity"    := FallacyProps("Fallacious Appeal to Popularity", 1, ["authority", "cum", "post", "accident"]),
    "affirming"     := FallacyProps("Affirming the Consequent", 2, ["denying", "undistributed", "composition", "division"]),
    "denying"       := FallacyProps("Denying the Antecedent", 2, ["affirming", "undistributed", "composition", "division"]),
    "undistributed" := FallacyProps("Undistributed Middle", 2, ["denying", "affirming", "composition", "division"]),
    "equivocation"  := FallacyProps("Equivocation", 1, ["composition", "division"]),
    "composition"   := FallacyProps("Composition", 3, ["division", "equivocation"]),
    "division"      := FallacyProps("Division", 3, ["composition", "equivocation"])
  ]

  /** The question instances, in source order. They are declared in groups of
      five (`Group0` .. `Group7`) so that the facts about each group are
      checked one group at a time. */
  const Fallacies: seq<Fallacy> :=
    Group0 + Group1 + Group2 + Group3 + Group4 + Group5 + Group6 + Group7

  const Group0: seq<Fallacy> := [
      Fallacy("straw", ["Jane complains about", "the way I clean.", "She must want", "to be able", "to eat off the floor"], [1, 4]),
      Fallacy("hominem", ["Don't listen", "to Al Gore.", "He spews", "liberal propaganda."], [3]),
      Fallacy("hominem", ["Rush Limbaugh", "is a pompous windbag.", "Don't listen", "to him."], [1]),
      Fallacy("emotion", ["All guns", "need to be banned.", "Won't anyone", "think of the children?"], [3]),
      Fallacy("hominem", ["People", "who don't believe", "in gay marriage", "are absolute sickos,", "and shouldn't be", "taken seriously"], [3])
  ]

  const Group1: seq<Fallacy> := [
      Fallacy("straw", ["How could", "global warming", "exist,", "it snowed", "just yesterday?"], [1, 3]),
      Fallacy("straw", ["Curbing violence", "in movies", "doesn't make sense.", "Do you think", "they should just make", "movies for kids?"], [0, 5]),
      Fallacy("straw", ["A cruise", "would be nice", "but we can't", "spend all our money", "on vacations!"], [0, 3]),
      Fallacy("straw", ["Why do you", "want more shoes?", "Nobody needs", "a thousand pairs of shoes!"], [1, 3]),
      Fallacy("slippery", ["Once", "I eat this", "chocolate,", "I will keep eating", "and won't stop."], [1, 3])
  ]

  const Group2: seq<Fallacy> := [
      Fallacy("authority", ["The prayer", "cured", "her rheumatism.", "She said", "it did", "and who would know better than she?"], [5]),
      Fallacy("hasty", ["If they", "messed up your order", "you should", "stop doing business", "with them."], [1, 3]),
      Fallacy("cum", ["Countries that don't eat meat", "have", "less prostate cancer.", "Therefore,", "eating meat", "leads to", "prostate cancer"], [4, 6]),
      Fallacy("accident", ["I saw", "a teacher with their phone", "even though", "school policy", "says", "no phones in school.", "What gives?"], [1, 5]),
      Fallacy("cum", ["Smokers tend", "to come from", "low income", "areas.", "What is it", "about low income", "that", "makes people smoke?"], [5, 7])
  ]

  const Group3: seq<Fallacy> := [
      Fallacy("hasty", ["American air is so polluted.", "I saw", "this one place", "in Houston", "with so much pollution."], [0, 2]),
      Fallacy("post", ["After my granddad", "had his", "heart attack", "his hair turned", "completely white.", "I didn't know", "a heart attack", "could cause that."], [2, 4]),
      Fallacy("authority", ["Gay parents", "cannot raise", "babies correctly.", "Reverend Jacob", "says that."], [3]),
      Fallacy("popularity", ["Being overweight", "can't be bad.", "85% of people", "are overweight,", "as a matter", "of fact."], [2]),
      Fallacy("popularity", ["Yawns are", "contagious.", "Ask anyone."], [2])
  ]

  const Group4: seq<Fallacy> := [
      Fallacy("popularity", ["Caesar was", "a great dictator.", "After all", "everyone loved him."], [3]),
      Fallacy("popularity", ["Donald Trump", "must be", "the worst president.", "I mean,", "just look", "at how many people", "hate him."], [5]),
      Fallacy("accident", ["I can", "burn tires", "in my backyard", "if I want to.", "After all,", "it's a free country."], [1, 5]),
      Fallacy("slippery", ["They want", "to make", "it illegal to", "hit someone with his helmet?", "What's next,", "making tackling illegal?"], [2, 5]),
      Fallacy("authority", ["When I", "retake this", "stupid", "physiology course,", "I'll get", "an athlete", "to teach", "it to me.", "They're bound", "to know", "it."], [5])
  ]

  const Group5: seq<Fallacy> := [
      Fallacy("authority", ["Alicia", "doesn't think", "it would be", "illegal,", "and I", "trust her."], [0]),
      Fallacy("slippery", ["If something", "isn't done", "soon,", "all English people", "will", "turn Muslim."], [3, 5]),
      Fallacy("equivocation", ["Professor Park", "can tell you", "if you are sick.", "After all,", "he is", "a doctor."], [5]),
      Fallacy("composition", ["Sodium", "is toxic", "and so is", "chlorine.", "Therefore,", "I refuse", "to eat", "salt,", "which is", "made of", "the two."], [0, 4, 8]),
      Fallacy("affirming", ["Rich people", "buy a car", "like a Mercedes or Bentley.", "You have", "a Bentley", "therefore", "you must be rich."], [4, 6])
  ]

  const Group6: seq<Fallacy> := [
      Fallacy("undistributed", ["All hotels", "in the Southwest chain", "have elaborate lobbies.", "The Arlington", "also has a great lobby", "therefore", "it is a Southwest hotel."], [3, 6]),
      Fallacy("division", ["Water", "is wet.", "Therefore,", "both hydrogen", "and oxygen", "must be wet."], [0, 3, 4]),
      Fallacy("denying", ["If you", "are not", "21 or older", "you cannot drink.", "You are 21", "therefore", "you can drink."], [4, 6]),
      Fallacy("affirming", ["If Sally", "is 21 or older", "she can legally drink.", "Sally can legally drink", "therefore", "she is 21 or older"], [3, 5]),
      Fallacy("denying", ["If it is legal", "for Sally to drink", "then", "she is 21 or older.", "Sally cannot legally drink", "therefore", "she is under 21."], [4, 6])
  ]

  const Group7: seq<Fallacy> := [
      Fallacy("affirming", ["If Sally", "is 21 or older", "she can legally drink.", "Sally is not 21 or older", "therefore", "she cannot legally drink."], [3, 5]),
      Fallacy("affirming", ["If you", "dropped out", "of college,", "you wouldn't", "make much", "money.", "Chris doesn't make much money,", "therefore", "he dropped out."], [6, 8]),
      Fallacy("equivocation", ["Of course", "he couldn't", "see your point.", "Dude's blind."], [2]),
      Fallacy("affirming", ["When James", "gets the paper", "Mr. Fields", "gives him", "a tip.", "Yesterday,", "Mr. Fields", "gave him a tip", "so he must've", "gotten the paper."], [7, 9]),
      Fallacy("equivocation", ["I'll tell you", "right now", "Mr. Horace,", "no daughter", "of mine", "is going to work", "at a", "strip mall."], [7])
  ]

  /** The number of question instances, `len(fallacies)`. */
  const QuestionCount: nat := 40

  /** The instance shown in tutorial mode, which overrides the randomly drawn one. */
  const Tutorial: Fallacy :=
    Fallacy("analogy", ["Mice", "are afraid", "of cats", "therefore", "humans", "are afraid", "of cats."], [0, 4])

  /** The keys of `FallacyNames`, listed once each. */
  const KeyList: seq<string> := [
    "hominem", "straw", "emotion", "analogy", "hasty", "accident", "post", "cum", "slippery",
    "authority", "popularity", "affirming", "denying", "undistributed", "equivocation",
    "composition", "division"
  ]

  lemma KeyListEnumeratesTable()
    ensures Distinct(KeyList)
    ensures forall k :: k in FallacyNames <==> k in KeyList
  {
  }

  /** The entry of "Weak Analogy" and its five related kinds. */
  lemma AnalogyEntry()
    ensures "analogy" in FallacyNames && "authority" in FallacyNames
    ensures var rel := FallacyNames["analogy"].related;
      && rel == ["slippery", "accident", "authority", "popularity", "hasty"]
      && Distinct(rel) && "analogy" !in rel
  {
  }

  lemma FallacyNamesSize()
    ensures |FallacyNames.Keys| == 17
  {
    KeyListEnumeratesTable();
    assert FallacyNames.Keys == Elems(KeyList);
    DistinctCard(KeyList);
  }

  lemma RelatedAreKeys()
    ensures forall k :: k in FallacyNames ==> forall r :: r in FallacyNames[k].related ==> r in KeyList
  {
  }

  lemma FallacyNamesOk()
    ensures TableOk(FallacyNames)
    ensures |FallacyNames.Keys| == 17
  {
    FallacyNamesSize();
    KeyListEnumeratesTable();
    RelatedAreKeys();
    NoSelfRelation();
    RelatedDistinct();
    EntriesLargeEnough();
  }

  lemma NoSelfRelation()
    ensures forall k :: k in FallacyNames ==> k !in FallacyNames[k].related
  {
  }

  lemma RelatedDistinct()
    ensures forall k :: k in FallacyNames ==> Distinct(FallacyNames[k].related)
  {
  }

  lemma EntriesLargeEnough()
    ensures forall k :: k in FallacyNames ==> |FallacyNames[k].related| >= 2 && FallacyNames[k].argCount >= 1
  {
  }

  /** The `argCount` column of the table, as a function of the key. */
  function ArgCountOf(k: string): int
  {
    if k in ["composition", "division"] then 3
    else if k in ["hominem", "emotion", "authority", "popularity", "equivocation"] then 1
    else 2
  }

  lemma ArgCountsAgree()
    ensures forall k :: k in FallacyNames ==> FallacyNames[k].argCount == ArgCountOf(k)
  {
  }

  /** The table half of `InstanceOk`, with the lookups replaced by `KeyList` and
      `ArgCountOf`. */
  predicate KindOk(f: Fallacy)
  {
    f.name in KeyList && |f.ans| == ArgCountOf(f.name)
  }

  /** The answer indices of `InstanceOk`: distinct positions in the passage. */
  predicate AnswersOk(f: Fallacy)
  {
    && Distinct(f.ans)
    && (forall i :: 0 <= i < |f.ans| ==> 0 <= f.ans[i] < |f.phrases|)
  }

  /** The phrases of `InstanceOk`: none is empty. */
  predicate PhrasesOk(f: Fallacy)
  {
    forall p :: p in f.phrases ==> |p| > 0
  }

  lemma GroupFits(g: seq<Fallacy>)
    requires forall f :: f in g ==> KindOk(f)
    requires forall f :: f in g ==> AnswersOk(f)
    requires forall f :: f in g ==> PhrasesOk(f)
    ensures AllFit(FallacyNames, g)
  {
    KeyListEnumeratesTable();
    ArgCountsAgree();
    forall i | 0 <= i < |g| ensures InstanceOk(FallacyNames, g[i]) {
      assert g[i] in g;
    }
  }

  // The three facts of each group are checked by separate lemmas (Dafny proves each
  // from the literal data alone) because one lemma per group, or one for all forty
  // instances, costs the solver far more than the three small ones together.

  lemma Group0Kinds()
    ensures forall f :: f in Group0 ==> KindOk(f)
  {
  }

  lemma Group0Answers()
    ensures forall f :: f in Group0 ==> AnswersOk(f)
  {
  }

  lemma Group0Phrases()
    ensures forall f :: f in Group0 ==> PhrasesOk(f)
  {
  }

  lemma Group1Kinds()
    ensures forall f :: f in Group1 ==> KindOk(f)
  {
  }

  lemma Group1Answers()
    ensures forall f :: f in Group1 ==> AnswersOk(f)
  {
  }

  lemma Group1Phrases()
    ensures forall f :: f in Group1 ==> PhrasesOk(f)
  {
  }

  lemma Group2Kinds()
    ensures forall f :: f in Group2 ==> KindOk(f)
  {
  }

  lemma Group2Answers()
    ensures forall f :: f in Group2 ==> AnswersOk(f)
  {
  }

  lemma Group2Phrases()
    ensures forall f :: f in Group2 ==> PhrasesOk(f)
  {
  }

  lemma Group3Kinds()
    ensures forall f :: f in Group3 ==> KindOk(f)
  {
  }

  lemma Group3Answers()
    ensures forall f :: f in Group3 ==> AnswersOk(f)
  {
  }

  lemma Group3Phrases()
    ensures forall f :: f in Group3 ==> PhrasesOk(f)
  {
  }

  lemma Group4Kinds()
    ensures forall f :: f in Group4 ==> KindOk(f)
  {
  }

  lemma Group4Answers()
    ensures forall f :: f in Group4 ==> AnswersOk(f)
  {
  }

  lemma Group4Phrases()
    ensures forall f :: f in Group4 ==> PhrasesOk(f)
  {
  }

  lemma Group5Kinds()
    ensures forall f :: f in Group5 ==> KindOk(f)
  {
  }

  lemma Group5Answers()
    ensures forall f :: f in Group5 ==> AnswersOk(f)
  {
  }

  lemma Group5Phrases()
    ensures forall f :: f in Group5 ==> PhrasesOk(f)
  {
  }

  lemma Group6Kinds()
    ensures forall f :: f in Group6 ==> KindOk(f)
  {
  }

  lemma Group6Answers()
    ensures forall f :: f in Group6 ==> AnswersOk(f)
  {
  }

  lemma Group6Phrases()
    ensures forall f :: f in Group6 ==> PhrasesOk(f)
  {
  }

  lemma Group7Kinds()
    ensures forall f :: f in Group7 ==> KindOk(f)
  {
  }

  lemma Group7Answers()
    ensures forall f :: f in Group7 ==> AnswersOk(f)
  {
  }

  lemma Group7Phrases()
    ensures forall f :: f in Group7 ==> PhrasesOk(f)
  {
  }

  /** Eight lists that all fit, one after the other, fit. */
  lemma AllFitConcat(t: Table, g0: seq<Fallacy>, g1: seq<Fallacy>, g2: seq<Fallacy>, g3: seq<Fallacy>,
                     g4: seq<Fallacy>, g5: seq<Fallacy>, g6: seq<Fallacy>, g7: seq<Fallacy>)
    requires AllFit(t, g0) && AllFit(t, g1) && AllFit(t, g2) && AllFit(t, g3)
    requires AllFit(t, g4) && AllFit(t, g5) && AllFit(t, g6) && AllFit(t, g7)
    ensures AllFit(t, g0 + g1 + g2 + g3 + g4 + g5 + g6 + g7)
  {
    AllFitAppend(t, g0, g1);
    AllFitAppend(t, g0 + g1, g2);
    AllFitAppend(t, g0 + g1 + g2, g3);
    AllFitAppend(t, g0 + g1 + g2 + g3, g4);
    AllFitAppend(t, g0 + g1 + g2 + g3 + g4, g5);
    AllFitAppend(t, g0 + g1 + g2 + g3 + g4 + g5, g6);
    AllFitAppend(t, g0 + g1 + g2 + g3 + g4 + g5 + g6, g7);
  }

  lemma LowerGroupsFit()
    ensures AllFit(FallacyNames, Group0) && AllFit(FallacyNames, Group1)
    ensures AllFit(FallacyNames, Group2) && AllFit(FallacyNames, Group3)
  {
    Group0Kinds(); Group0Answers(); Group0Phrases(); GroupFits(Group0);
    Group1Kinds(); Group1Answers(); Group1Phrases(); GroupFits(Group1);
    Group2Kinds(); Group2Answers(); Group2Phrases(); GroupFits(Group2);
    Group3Kinds(); Group3Answers(); Group3Phrases(); GroupFits(Group3);
  }

  lemma UpperGroupsFit()
    ensures AllFit(FallacyNames, Group4) && AllFit(FallacyNames, Group5)
    ensures AllFit(FallacyNames, Group6) && AllFit(FallacyNames, Group7)
  {
    Group4Kinds(); Group4Answers(); Group4Phrases(); GroupFits(Group4);
    Group5Kinds(); Group5Answers(); Group5Phrases(); GroupFits(Group5);
    Group6Kinds(); Group6Answers(); Group6Phrases(); GroupFits(Group6);
    Group7Kinds(); Group7Answers(); Group7Phrases(); GroupFits(Group7);
  }

  /** Every question instance fits the table, and there are forty of them. */
  lemma InstancesOk()
    ensures |Fallacies| == QuestionCount
    ensures AllFit(FallacyNames, Fallacies)
  {
    LowerGroupsFit();
    UpperGroupsFit();
    AllFitConcat(FallacyNames, Group0, Group1, Group2, Group3, Group4, Group5, Group6, Group7);
  }

  const TutorialGroup: seq<Fallacy> := [Tutorial]

  lemma TutorialKind()
    ensures forall f :: f in TutorialGroup ==> KindOk(f)
  {
  }

  lemma TutorialAnswers()
    ensures forall f :: f in TutorialGroup ==> AnswersOk(f)
  {
  }

  lemma TutorialPhrases()
    ensures forall f :: f in TutorialGroup ==> PhrasesOk(f)
  {
  }

  /** The deck of the game: the forty instances, and the tutorial instance. */
  const Questions: Deck := Deck(Fallacies, Tutorial)

  /** The game's deck fits the table. */
  lemma QuestionsOk()
    ensures DeckOk(FallacyNames, Questions)
    ensures |Questions.questions| == QuestionCount
  {
    InstancesOk();
    TutorialKind();
    TutorialAnswers();
    TutorialPhrases();
    GroupFits(TutorialGroup);
    assert TutorialGroup[0] == Tutorial;
  }
}
