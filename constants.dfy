/** The topic list of constants.ts; the first entry is the initial topic. */
module Constants {

  const DefaultTopics: seq<string> := [
    "Modern Pop Culture",
    "World History",
    "Science Disasters",
    "Obscure Geography",
    "Classic Video Games"
  ]
}
