/** Translation between the entity and the transfer records: the hand-written
    `toEntity`/`toDTO` and the declared null-ignoring partial update. */
module Mapper {
  import opened Wrappers
  import opened StatusEnum
  import opened Entity
  import opened Dto

  /** The IllegalArgumentExceptions the mapper throws, and the builder's NullPointerException. */
  datatype MapperError =
    | NullInput                              // toEntity(null)
    | NullEntity                             // toDTO(null)
    | InvalidStatus(given: Option<string>)   // toEntity: status text null or not a constant's name
    | NoEnumConstant(text: string)           // the generated update: `Enum.valueOf` rejects the text
    | BuilderFailed(cause: BuildError)       // a null title reaching the builder

  /** The class `Enum.valueOf` names in its message. */
  const StatusEnumClass: string := "com.example.achievement_tracker.persistence.model.StatusEnum"

  /** The exception's message: the mapper's own texts, the JDK's text for `Enum.valueOf`,
      and Lombok's for the builder. Each message about a status ends with the text given. */
  function MapperErrorMessage(e: MapperError): (m: string)
    ensures e.InvalidStatus? ==> var shown := e.given.GetOr("null");
      |m| >= |shown| && m[|m| - |shown|..] == shown
    ensures e.NoEnumConstant? ==> |m| > |e.text| && m[|m| - |e.text|..] == e.text
    ensures e.BuilderFailed? ==> m == BuildErrorMessage(e.cause)
  {
    match e
    case NullInput => "Input DTO cannot be null"
    case NullEntity => "Input entity cannot be null"
    case InvalidStatus(given) => "Invalid status provided: " + given.GetOr("null")
    case NoEnumConstant(text) => "No enum constant " + StatusEnumClass + "." + text
    case BuilderFailed(cause) => BuildErrorMessage(cause)
  }

  /** The two null-input messages differ, so a caller can tell which conversion failed. */
  lemma NullMessagesDiffer()
    ensures MapperErrorMessage(NullInput) != MapperErrorMessage(NullEntity)
  {
    assert MapperErrorMessage(NullInput)[6] == 'D';
    assert MapperErrorMessage(NullEntity)[6] == 'e';
  }

  /** `toEntity`: the null check, then the status lookup, then the builder with every
      field but the id set explicitly (so only the tags get a default, from the mapper). */
  function ToEntity(dto: Option<CreateAchievementDTO>): (r: Result<Achievement, MapperError>)
    ensures dto.None? ==> r == Err(NullInput)
    ensures dto.Some? && (dto.value.status.None? || Parse(dto.value.status.value).None?)
         ==> r == Err(InvalidStatus(dto.value.status))
    ensures dto.Some? && dto.value.status.Some? && Parse(dto.value.status.value).Some? && dto.value.title.None?
         ==> r == Err(BuilderFailed(NonNullViolation(TitleField)))
    ensures r.Ok? <==> dto.Some? && dto.value.title.Some? && dto.value.status.Some? && Parse(dto.value.status.value).Some?
    ensures r.Ok? ==> && r.value.id.None?
                      && Some(r.value.title) == dto.value.title
                      && Some(Name(r.value.status)) == dto.value.status
                      && r.value.description == dto.value.description
                      && r.value.dateStarted == dto.value.dateStarted
                      && r.value.dateCompleted == dto.value.dateCompleted
                      && r.value.tags == Some(dto.value.tags.GetOr({}))
  {
    if dto.None? then Err(NullInput)
    else
      var d := dto.value;
      var status := if d.status.None? then None else Parse(d.status.value);
      if status.None? then Err(InvalidStatus(d.status))
      // The day passed for the builder's clock is never read (ToEntityIgnoresClock).
      else match Build(ExplicitBuilder(d, status.value), 0)
        case Ok(e) => Ok(e)
        case Err(cause) => Err(BuilderFailed(cause))
  }

  /** The builder calls `toEntity` makes: every property but the id is set, even to null. */
  function ExplicitBuilder(d: CreateAchievementDTO, status: Status): Builder {
    NewBuilder.(
      title := Given(d.title),
      description := Given(d.description),
      dateStarted := Given(d.dateStarted),
      dateCompleted := Given(d.dateCompleted),
      tags := Given(Some(d.tags.GetOr({}))),
      status := Given(Some(status)))
  }

  /** `toEntity` never reads the clock: because every date property is set explicitly,
      the builder's `LocalDate.now()` defaults never apply, whatever day it is. */
  lemma ToEntityIgnoresClock(d: CreateAchievementDTO, status: Status, today: Date)
    ensures Build(ExplicitBuilder(d, status), today) == Build(ExplicitBuilder(d, status), 0)
    ensures Build(ExplicitBuilder(d, status), today).Ok? ==>
              Build(ExplicitBuilder(d, status), today).value.description == d.description
  {
  }

  /** The projection `toDTO` performs on a non-null entity: every field is kept, and the
      status text parses back to the entity's status. */
  function Project(e: Achievement): (r: AchievementDTO)
    ensures && r.id == e.id && r.title == e.title && r.description == e.description
            && r.dateStarted == e.dateStarted && r.dateCompleted == e.dateCompleted
            && r.tags == e.tags
    ensures Parse(r.status) == Some(e.status)
  {
    AchievementDTO(e.id, e.title, e.description, e.dateStarted, e.dateCompleted, e.tags, Name(e.status))
  }

  /** `toDTO`: the null check, then a field-by-field copy with the status rendered by name. */
  function ToDTO(entity: Option<Achievement>): (r: Result<AchievementDTO, MapperError>)
    ensures entity.None? <==> r == Err(NullEntity)
    ensures entity.Some? ==> r.Ok?
    ensures r.Ok? ==> && r.value.id == entity.value.id
                      && r.value.title == entity.value.title
                      && r.value.description == entity.value.description
                      && r.value.dateStarted == entity.value.dateStarted
                      && r.value.dateCompleted == entity.value.dateCompleted
                      && r.value.tags == entity.value.tags
                      && Parse(r.value.status) == Some(entity.value.status)
  {
    if entity.None? then Err(NullEntity) else Ok(Project(entity.value))
  }

  /** Round trip: mapping a valid creation request to an entity and back keeps its title,
      description, dates, status text and non-null tags; the id stays unset. */
  lemma ToDTOToEntityRoundTrip(d: CreateAchievementDTO)
    requires ToEntity(Some(d)).Ok?
    ensures var back := ToDTO(Some(ToEntity(Some(d)).value));
      && back.Ok?
      && back.value.id.None?
      && Some(back.value.title) == d.title
      && back.value.description == d.description
      && back.value.dateStarted == d.dateStarted
      && back.value.dateCompleted == d.dateCompleted
      && Some(back.value.status) == d.status
      && (d.tags.Some? ==> back.value.tags == d.tags)
      && (d.tags.None? ==> back.value.tags == Some({}))
  {
  }

  /** Project is injective on statuses: the read model loses no entity information. */
  lemma ProjectInjective(a: Achievement, b: Achievement)
    requires Project(a) == Project(b)
    ensures a == b
  {
    ParseIffName(Project(a).status, a.status);
    ParseIffName(Project(b).status, b.status);
  }

  /** `updateEntityFromDTO` as MapStruct generates it under the IGNORE strategy for null
      properties, with `id` excluded: every non-null field of the request overwrites the
      entity's; a non-null status text goes through `StatusEnum.valueOf`. */
  function ApplyUpdate(u: UpdateAchievementDTO, e: Achievement): (r: Result<Achievement, MapperError>)
    ensures r.Err? <==> u.status.Some? && Parse(u.status.value).None?
    ensures r.Err? ==> r.error == NoEnumConstant(u.status.value)
    ensures r.Ok? ==> && r.value.id == e.id
                      && r.value.title == u.title.GetOr(e.title)
                      && (u.description.None? ==> r.value.description == e.description)
                      && (u.description.Some? ==> r.value.description == u.description)
                      && (u.dateStarted.None? ==> r.value.dateStarted == e.dateStarted)
                      && (u.dateStarted.Some? ==> r.value.dateStarted == u.dateStarted)
                      && (u.dateCompleted.None? ==> r.value.dateCompleted == e.dateCompleted)
                      && (u.dateCompleted.Some? ==> r.value.dateCompleted == u.dateCompleted)
                      && (u.tags.None? ==> r.value.tags == e.tags)
                      && (u.tags.Some? ==> r.value.tags == u.tags)
                      && (u.status.None? ==> r.value.status == e.status)
                      && (u.status.Some? ==> Name(r.value.status) == u.status.value)
  {
    var status := if u.status.None? then Some(e.status) else Parse(u.status.value);
    if status.None? then Err(NoEnumConstant(u.status.value))
    else Ok(e.(
      title := u.title.GetOr(e.title),
      description := if u.description.Some? then u.description else e.description,
      dateStarted := if u.dateStarted.Some? then u.dateStarted else e.dateStarted,
      dateCompleted := if u.dateCompleted.Some? then u.dateCompleted else e.dateCompleted,
      tags := if u.tags.Some? then u.tags else e.tags,
      status := status.value))
  }

  /** An update request whose every field is null leaves the entity as it was. */
  lemma EmptyUpdateIsIdentity(id: Option<int>, e: Achievement)
    ensures ApplyUpdate(UpdateAchievementDTO(id, None, None, None, None, None, None), e) == Ok(e)
  {
  }

  /** The request's id is ignored: the outcome is the same whatever id it carries. */
  lemma ApplyUpdateIgnoresRequestId(u: UpdateAchievementDTO, e: Achievement, other: Option<int>)
    ensures ApplyUpdate(u.(id := other), e) == ApplyUpdate(u, e)
  {
  }

  /** Applying the same update twice gives what applying it once gave. */
  lemma ApplyUpdateIdempotent(u: UpdateAchievementDTO, e: Achievement)
    requires ApplyUpdate(u, e).Ok?
    ensures ApplyUpdate(u, ApplyUpdate(u, e).value) == ApplyUpdate(u, e)
  {
  }
}
