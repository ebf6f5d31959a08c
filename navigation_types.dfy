/**
 * The enumerations and the setup record shared by the screens
 * (navigation/types.ts). In the source the enumerations are unions of string
 * literals; here they are datatypes, and `TopicName`/`DifficultyName` give the
 * strings they stand for at run time.
 */
module NavigationTypes {
  import opened Wrappers

  datatype TopicKey =
    | Math | Science | History | Geography | Literature
    | Technology | Sports | VideoGames | TVMovies

  datatype Difficulty = Easy | Medium | Hard | Impossible

  /** The run-time spelling of a topic key. */
  function TopicName(t: TopicKey): string
  {
    match t
    case Math => "Math"
    case Science => "Science"
    case History => "History"
    case Geography => "Geography"
    case Literature => "Literature"
    case Technology => "Technology"
    case Sports => "Sports"
    case VideoGames => "VideoGames"
    case TVMovies => "TVMovies"
  }

  /** The run-time spelling of a difficulty. */
  function DifficultyName(d: Difficulty): string
  {
    match d
    case Easy => "easy"
    case Medium => "medium"
    case Hard => "hard"
    case Impossible => "impossible"
  }

  /** The string literals that make up the `TopicKey` union. */
  const TopicNames: seq<string> :=
    ["Math", "Science", "History", "Geography", "Literature",
     "Technology", "Sports", "VideoGames", "TVMovies"]

  /** The string literals that make up the `Difficulty` union. */
  const DifficultyNames: seq<string> := ["easy", "medium", "hard", "impossible"]

  /** Reads a string back as a topic key; `None` for a string outside the union. */
  function ParseTopic(s: string): (r: Option<TopicKey>)
    ensures r.Some? ==> TopicName(r.value) == s
    ensures r.None? <==> s !in TopicNames
  {
    if s == "Math" then Some(Math)
    else if s == "Science" then Some(Science)
    else if s == "History" then Some(History)
    else if s == "Geography" then Some(Geography)
    else if s == "Literature" then Some(Literature)
    else if s == "Technology" then Some(Technology)
    else if s == "Sports" then Some(Sports)
    else if s == "VideoGames" then Some(VideoGames)
    else if s == "TVMovies" then Some(TVMovies)
    else None
  }

  /** Reads a string back as a difficulty; `None` for a string outside the union. */
  function ParseDifficulty(s: string): (r: Option<Difficulty>)
    ensures r.Some? ==> DifficultyName(r.value) == s
    ensures r.None? <==> s !in DifficultyNames
  {
    if s == "easy" then Some(Easy)
    else if s == "medium" then Some(Medium)
    else if s == "hard" then Some(Hard)
    else if s == "impossible" then Some(Impossible)
    else None
  }

  /** Every topic key is spelled by one of the union's literals and reads back as itself. */
  lemma TopicNameRoundTrip(t: TopicKey)
    ensures TopicName(t) in TopicNames
    ensures ParseTopic(TopicName(t)) == Some(t)
  {
  }

  /** Every difficulty is spelled by one of the union's literals and reads back as itself. */
  lemma DifficultyNameRoundTrip(d: Difficulty)
    ensures DifficultyName(d) in DifficultyNames
    ensures ParseDifficulty(DifficultyName(d)) == Some(d)
  {
  }

  /** `{ topic?, difficulty?, count? }`: the picker flow fills it one field at a time. */
  datatype GameSetup = GameSetup(
    topic: Option<TopicKey>,
    difficulty: Option<Difficulty>,
    count: Option<int>)

  /** The setup with no field present (`{}`). */
  const EmptySetup := GameSetup(None, None, None)
}
