/** The persisted Achievement entity and its Lombok builder. */
module Entity {
  import opened Wrappers
  import opened StatusEnum

  /** A calendar date (java.time.LocalDate), as a day number. */
  type Date = int

  /** The description given to an entity whose builder never set one. */
  const DefaultDescription: string := "This is a generic achievement."

  /** The `@Length(max = 50)` bound on the title. */
  const MaxTitleLength: nat := 50

  /** The length of a `@Column` string without an explicit length: JPA's default of 255. */
  const ColumnLength: nat := 255

  /** The entity's fields. Nullable Java references are Options; `title` and `status`
      are `@NonNull`, so they are plain values. `id` is None until the store assigns one. */
  datatype Achievement = Achievement(
    id: Option<int>,
    title: string,
    description: Option<string>,
    dateStarted: Option<Date>,
    dateCompleted: Option<Date>,
    tags: Option<set<string>>,
    status: Status)

  /** `@NotEmpty` and `@Length(max = 50)` on the title, checked by Bean Validation
      when the entity is written to the store. */
  predicate ValidTitle(title: string) {
    0 < |title| <= MaxTitleLength
  }

  /** Do the description and every tag fit their 255-character columns? */
  predicate FitsColumns(e: Achievement) {
    && (e.description.Some? ==> |e.description.value| <= ColumnLength)
    && (e.tags.Some? ==> forall t :: t in e.tags.value ==> |t| <= ColumnLength)
  }

  /** The state of one builder property: never called, or called with a (possibly null) value. */
  datatype Setting<T> = Unset | Given(value: Option<T>)

  /** Lombok's `Achievement.builder()`, after some setter calls. */
  datatype Builder = Builder(
    id: Setting<int>,
    title: Setting<string>,
    description: Setting<string>,
    dateStarted: Setting<Date>,
    dateCompleted: Setting<Date>,
    tags: Setting<set<string>>,
    status: Setting<Status>)

  /** `Achievement.builder()` before any setter is called. */
  const NewBuilder := Builder(Unset, Unset, Unset, Unset, Unset, Unset, Unset)

  /** The `@NonNull` fields of the entity. */
  datatype NonNullField = TitleField | StatusField

  /** The NullPointerException Lombok's generated constructor throws for a null `@NonNull` field. */
  datatype BuildError = NonNullViolation(field: NonNullField)

  /** The exception's message, a literal Lombok writes into the constructor per field. */
  /** The field's name as declared in the entity. */
  function FieldName(f: NonNullField): string {
    match f
    case TitleField => "title"
    case StatusField => "status"
  }

  function BuildErrorMessage(e: BuildError): (m: string)
    ensures |m| > |FieldName(e.field)| && m[..|FieldName(e.field)|] == FieldName(e.field)
  {
    match e.field
    case TitleField => "title is marked non-null but is null"
    case StatusField => "status is marked non-null but is null"
  }

  /** The message identifies the field: the two fields' messages differ. */
  lemma BuildErrorMessageInjective(a: BuildError, b: BuildError)
    requires BuildErrorMessage(a) == BuildErrorMessage(b)
    ensures a == b
  {
    assert BuildErrorMessage(a)[0] == BuildErrorMessage(b)[0];
  }

  /** Is a `@NonNull` property set to a non-null value? */
  predicate Supplied<T>(s: Setting<T>) {
    s.Given? && s.value.Some?
  }

  /** The value of a property: what its setter was given, or its `@Builder.Default` when never called. */
  function Resolve<T>(s: Setting<T>, default: Option<T>): Option<T> {
    match s
    case Unset => default
    case Given(v) => v
  }

  /** `build()`: fills the `@Builder.Default` fields that were never set (the two dates from
      `today`, which stands for `LocalDate.now()`), then checks the `@NonNull` fields in
      declaration order, title before status. */
  function Build(b: Builder, today: Date): (r: Result<Achievement, BuildError>)
    ensures r.Ok? <==> Supplied(b.title) && Supplied(b.status)
    ensures !Supplied(b.title) ==> r == Err(NonNullViolation(TitleField))
    ensures Supplied(b.title) && !Supplied(b.status) ==> r == Err(NonNullViolation(StatusField))
    ensures r.Ok? ==> r.value.title == b.title.value.value && r.value.status == b.status.value.value
    ensures r.Ok? && b.id.Unset? ==> r.value.id.None?
    ensures r.Ok? && b.id.Given? ==> r.value.id == b.id.value
    ensures r.Ok? && b.description.Unset? ==> r.value.description == Some(DefaultDescription)
    ensures r.Ok? && b.description.Given? ==> r.value.description == b.description.value
    ensures r.Ok? && b.dateStarted.Unset? ==> r.value.dateStarted == Some(today)
    ensures r.Ok? && b.dateStarted.Given? ==> r.value.dateStarted == b.dateStarted.value
    ensures r.Ok? && b.dateCompleted.Unset? ==> r.value.dateCompleted == Some(today)
    ensures r.Ok? && b.dateCompleted.Given? ==> r.value.dateCompleted == b.dateCompleted.value
    ensures r.Ok? && b.tags.Unset? ==> r.value.tags == Some({})
    ensures r.Ok? && b.tags.Given? ==> r.value.tags == b.tags.value
  {
    var title := Resolve(b.title, None);
    var status := Resolve(b.status, None);
    if title.None? then Err(NonNullViolation(TitleField))
    else if status.None? then Err(NonNullViolation(StatusField))
    else Ok(Achievement(
      Resolve(b.id, None),
      title.value,
      Resolve(b.description, Some(DefaultDescription)),
      Resolve(b.dateStarted, Some(today)),
      Resolve(b.dateCompleted, Some(today)),
      Resolve(b.tags, Some({})),
      status.value))
  }

  /** An entity built from a title and a status alone carries every default: no id, the
      generic description, today for both dates and no tags. */
  lemma BuildWithDefaults(title: string, status: Status, today: Date)
    ensures Build(NewBuilder.(title := Given(Some(title)), status := Given(Some(status))), today)
         == Ok(Achievement(None, title, Some(DefaultDescription), Some(today), Some(today), Some({}), status))
  {
  }

  /** Leaving out the title fails on the title, whatever else was set (a missing status included). */
  lemma MissingTitleMessage(b: Builder, today: Date)
    requires b.title.Unset?
    ensures Build(b, today).Err? && BuildErrorMessage(Build(b, today).error) == "title is marked non-null but is null"
  {
  }

  /** Leaving out only the status fails on the status. */
  lemma MissingStatusMessage(b: Builder, today: Date)
    requires Supplied(b.title) && b.status.Unset?
    ensures Build(b, today).Err? && BuildErrorMessage(Build(b, today).error) == "status is marked non-null but is null"
  {
  }
}
