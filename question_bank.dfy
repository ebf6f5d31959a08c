/**
 * The built-in question bank (data/questions.ts): the `Question` record and
 * the constant `QUESTIONS`, with the well-formedness the rest of the app
 * relies on (unique ids, four answers, a correct index inside the answers).
 */
module QuestionBank {
  import opened NavigationTypes

  datatype Question = Question(
    id: string,
    topic: TopicKey,
    difficulty: Difficulty,
    prompt: string,
    answers: seq<string>,
    correctIndex: int)

  const Questions: seq<Question> := [
    Question("math-easy-1", Math, Easy, "What is 2 + 2?",
      ["3", "4", "5", "6"], 1),
    Question("math-easy-2", Math, Easy, "What is 10 - 4?",
      ["6", "5", "4", "7"], 0),
    Question("science-medium-1", Science, Medium, "What is the chemical symbol for gold?",
      ["Ag", "Au", "Gd", "Go"], 1),
    Question("history-hard-1", History, Hard, "Who was the first emperor of Rome?",
      ["Julius Caesar", "Augustus", "Nero", "Tiberius"], 1),
    Question("technology-impossible-1", Technology, Impossible,
      "In what year was the first 1-terabyte hard drive released to consumers?",
      ["2005", "2007", "2008", "2010"], 2)
  ]

  /** One question: exactly four options and a correct index pointing into them. */
  predicate WellFormedQuestion(q: Question)
  {
    |q.answers| == 4 && 0 <= q.correctIndex < |q.answers|
  }

  /** No two questions share an id. */
  predicate UniqueIds(qs: seq<Question>)
  {
    forall i, j :: 0 <= i < j < |qs| ==> qs[i].id != qs[j].id
  }

  predicate WellFormedBank(qs: seq<Question>)
  {
    UniqueIds(qs) && forall i :: 0 <= i < |qs| ==> WellFormedQuestion(qs[i])
  }

  /** How many questions of `qs` have the given topic and difficulty. */
  function CountOf(qs: seq<Question>, t: TopicKey, d: Difficulty): (n: nat)
    ensures n <= |qs|
  {
    if qs == [] then 0
    else (if qs[0].topic == t && qs[0].difficulty == d then 1 else 0) + CountOf(qs[1..], t, d)
  }

  /** The bank is well formed, and its topic and difficulty spellings belong to the unions. */
  lemma BankWellFormed()
    ensures WellFormedBank(Questions)
    ensures forall i :: 0 <= i < |Questions| ==>
      TopicName(Questions[i].topic) in TopicNames
      && DifficultyName(Questions[i].difficulty) in DifficultyNames
  {
    forall i | 0 <= i < |Questions|
      ensures TopicName(Questions[i].topic) in TopicNames
      ensures DifficultyName(Questions[i].difficulty) in DifficultyNames
    {
      TopicNameRoundTrip(Questions[i].topic);
      DifficultyNameRoundTrip(Questions[i].difficulty);
    }
  }

  /** Five questions: two Math/easy, one each of Science/medium, History/hard, Technology/impossible. */
  lemma BankComposition()
    ensures |Questions| == 5
    ensures CountOf(Questions, Math, Easy) == 2
    ensures CountOf(Questions, Science, Medium) == 1
    ensures CountOf(Questions, History, Hard) == 1
    ensures CountOf(Questions, Technology, Impossible) == 1
    ensures CountOf(Questions, Geography, Easy) == 0
  {
    var q := Questions;
    assert q[1..][1..][1..][1..][1..] == [];
  }
}
