/** The request and response records exchanged with the API layer. Tags are a set
    here, as in the entity (the Java records declare a list). */
module Dto {
  import opened Wrappers
  import opened Entity

  /** A creation request: everything but the id, each field nullable. */
  datatype CreateAchievementDTO = CreateAchievementDTO(
    title: Option<string>,
    description: Option<string>,
    dateStarted: Option<Date>,
    dateCompleted: Option<Date>,
    tags: Option<set<string>>,
    status: Option<string>)

  /** An update request: the id that selects the record, and field overrides where non-null. */
  datatype UpdateAchievementDTO = UpdateAchievementDTO(
    id: Option<int>,
    title: Option<string>,
    description: Option<string>,
    dateStarted: Option<Date>,
    dateCompleted: Option<Date>,
    tags: Option<set<string>>,
    status: Option<string>)

  /** The read model: the entity with its status rendered as text. */
  datatype AchievementDTO = AchievementDTO(
    id: Option<int>,
    title: string,
    description: Option<string>,
    dateStarted: Option<Date>,
    dateCompleted: Option<Date>,
    tags: Option<set<string>>,
    status: string)
}
