/** The client's records. Dates are held as calendar dates; the
    `YYYY-MM-DD` strings they travel as, and their parsing, are outside
    the model. An optional field is `None` when the property is absent. */
module Types {
  import opened Js
  import opened Calendar

  datatype Mood = Happy | Romantic | Adventurous | Cozy | Silly | Grateful

  datatype Memory = Memory(
    id: string,
    title: string,
    content: string,
    date: CivilDate,
    imageUrl: Option<string>,
    location: Option<string>,
    mood: Mood)

  datatype MilestoneKind = Anniversary | Birthday | Special

  datatype Milestone = Milestone(id: string, title: string, date: CivilDate, kind: MilestoneKind)

  datatype QuizQuestion = QuizQuestion(
    id: string,
    question: string,
    myAnswer: Option<string>,
    partnerAnswer: Option<string>,
    isRevealed: bool)

  datatype AppView = TimelineView | AddMemoryView | AiToolsView | GalleryView | ProfileView
}
