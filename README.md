# Achievement tracker: a Dafny model of the CRUD core

This project models the core of a small Spring backend that tracks personal
achievements: a persisted `Achievement` entity, the mapper between that entity
and its transfer records, and the service that creates, reads, updates and
deletes achievements in the store. All of it is stated and proved in Dafny.

Modules, leaf first:

- `Wrappers` (wrappers.dfy): `Option` stands for a nullable Java reference and `Result` for a call that may throw.
- `StatusEnum` (status.dfy): the three statuses `TODO`, `IN_PROGRESS` and `COMPLETED`. `Name` is `Enum.name()` and `Parse` is `StatusEnum.valueOf`.
- `Decimal` (decimal.dfy): `Long.toString`, used in the delete error message, and its round trip.
- `Entity` (achievement.dfy): the entity record, the title constraints, and the Lombok builder as the function `Build`. `Build` fills the `@Builder.Default` fields and enforces `@NonNull`. The clock (`LocalDate.now()`) is a `today` parameter.
- `Dto` (dto.dfy): the create, update and read records.
- `Mapper` (mapper.dfy): `ToEntity`, `ToDTO` and the null-ignoring partial update `ApplyUpdate`.
- `Service` (service.dfy): the class `AchievementService`. It holds the store (generated id to entity), the ids in listing order and the next id to hand out. Its methods carry `modifies` clauses. The invariant `Valid()` says:
  - every stored entity carries its own key as id;
  - every stored title is valid;
  - titles are unique;
  - listing order is ascending and lists exactly the stored ids;
  - every id is below the next id, so ids are never reused.

Where the sources leave a choice, the model follows the code:

- **Description on create.** `toEntity` sets every builder property explicitly, even to null, so `@Builder.Default` never applies: an omitted description, start date or completion date stays null (`Mapper.ToEntityIgnoresClock`, `Service.ServiceSession`). Only the tags get a default, from the mapper itself.
- **Tags.** The entity declares tags as a `Set<String>` and the transfer records declare a `List<String>`. The model uses a set throughout.
- **Input of `toEntity`.** The implementation's `toEntity` takes the full read record. The interface's `toEntity` takes the creation record. The model takes the creation record, which has no id.
- **Rules on write.** Several rules are enforced when an entity is written:
  - the title's `@NotEmpty` and `@Length(max = 50)`;
  - the 255-character default length of the description column and of the tag column;
  - the unique title column.

  A create or update that breaks one of them fails, and the store is left unchanged. This stands for the rollback of the transactional service method.

## Model

| member | source | states |
|---|---|---|
| StatusEnum.Parse | src/main/java/com/example/achievement_tracker/persistence/mapper/implementation/AchievementMapperImpl.java:36 | a text parses only to the status whose name it exactly is |
| StatusEnum.Name | src/main/java/com/example/achievement_tracker/persistence/mapper/implementation/AchievementMapperImpl.java:64 | every status renders as a non-empty name |
| StatusEnum.ParseIffName | src/main/resources/static/js/status_distribution_chart.js:4-8 | parsing and naming are inverse in both directions over the three statuses |
| StatusEnum.NameInjective | src/main/resources/static/js/status_distribution_chart.js:4-8 | distinct statuses have distinct names |
| Decimal.Digits | src/main/java/com/example/achievement_tracker/service/implementation/AchievementServiceImpl.java:103-104 | the rendering of a non-negative id is a non-empty digit string with no leading zero |
| Decimal.LongToString | src/main/java/com/example/achievement_tracker/service/implementation/AchievementServiceImpl.java:103-104 | the rendering starts with a minus sign exactly for negative ids |
| Decimal.ValueOfDigits | src/main/java/com/example/achievement_tracker/service/implementation/AchievementServiceImpl.java:103-104 | reading the rendered digits back gives the id (round trip) |
| Decimal.LongToStringInjective | src/main/java/com/example/achievement_tracker/service/implementation/AchievementServiceImpl.java:103-104 | two different ids never render the same, so the message identifies the record |
| Entity.Build | src/main/java/com/example/achievement_tracker/persistence/model/Achievement.java:38-66 | building fails exactly when title or status is missing or null, title checked first; otherwise set properties are kept and unset ones take their defaults: no id, the placeholder description, today for both dates, empty tags |
| Entity.BuildWithDefaults | src/main/java/com/example/achievement_tracker/persistence/model/Achievement.java:55-61 | an entity built from title and status alone has the placeholder description, today for both dates and no tags |
| Entity.MissingTitleMessage | src/main/java/com/example/achievement_tracker/persistence/model/Achievement.java:53 | a builder without a title fails with "title is marked non-null but is null", whatever else is set |
| Entity.MissingStatusMessage | src/main/java/com/example/achievement_tracker/persistence/model/Achievement.java:64-66 | a builder with a title but no status fails with "status is marked non-null but is null" |
| Entity.BuildErrorMessage | src/main/java/com/example/achievement_tracker/persistence/model/Achievement.java:53-66 | the null-check message begins with the name of the @NonNull field that was null |
| Entity.BuildErrorMessageInjective | src/main/java/com/example/achievement_tracker/persistence/model/Achievement.java:53-66 | the title and status messages differ, so the message identifies the field |
| Mapper.MapperErrorMessage | src/main/java/com/example/achievement_tracker/persistence/mapper/implementation/AchievementMapperImpl.java:30-55 | the exception texts: a status error ends with the rejected text ("null" for a null status), for toEntity's "Invalid status provided: " and for `Enum.valueOf`'s "No enum constant …" alike; a builder failure carries Lombok's message |
| Mapper.NullMessagesDiffer | src/main/java/com/example/achievement_tracker/persistence/mapper/implementation/AchievementMapperImpl.java:30-55 | "Input DTO cannot be null" and "Input entity cannot be null" differ |
| Mapper.ToEntity | src/main/java/com/example/achievement_tracker/persistence/mapper/implementation/AchievementMapperImpl.java:29-49 | a null request fails as null input; a null or unknown status fails as that invalid status; a null title fails in the builder; it succeeds exactly otherwise, with no id, the status whose name is the given text, title, description and dates copied unchanged, and null tags turned into the empty set |
| Mapper.ToEntityIgnoresClock | src/main/java/com/example/achievement_tracker/persistence/mapper/implementation/AchievementMapperImpl.java:41-48 | the builder calls made by the mapper give the same entity on every day, and the description is the request's own even when null |
| Mapper.Project | src/main/java/com/example/achievement_tracker/persistence/mapper/implementation/AchievementMapperImpl.java:57-65 | the read model of a stored entity keeps id, title, description, dates and tags, and its status text parses back to the entity's status |
| Mapper.ToDTO | src/main/java/com/example/achievement_tracker/persistence/mapper/implementation/AchievementMapperImpl.java:52-66 | fails exactly for a null entity; otherwise copies id, title, description, dates and tags, with a status text that parses back to the entity's status |
| Mapper.ToDTOToEntityRoundTrip | src/main/java/com/example/achievement_tracker/persistence/mapper/implementation/AchievementMapperImpl.java:41-65 | mapping a valid request to an entity and back keeps title, description, dates, status text and non-null tags; null tags come back empty |
| Mapper.ProjectInjective | src/main/java/com/example/achievement_tracker/persistence/mapper/implementation/AchievementMapperImpl.java:57-65 | two entities with the same read model are the same entity |
| Mapper.ApplyUpdate | src/main/java/com/example/achievement_tracker/persistence/mapper/AchievementMapper.java:27-39 | keeps the id; every null request field keeps the entity's value and every non-null one overwrites it; a non-null status that names no status fails with `Enum.valueOf`'s own error, not the hand-written one of `toEntity` |
| Mapper.EmptyUpdateIsIdentity | src/main/java/com/example/achievement_tracker/persistence/mapper/AchievementMapper.java:27-29 | an all-null update changes nothing |
| Mapper.ApplyUpdateIgnoresRequestId | src/main/java/com/example/achievement_tracker/persistence/mapper/AchievementMapper.java:37-39 | the id the request carries has no effect on the result |
| Mapper.ApplyUpdateIdempotent | src/main/java/com/example/achievement_tracker/persistence/mapper/AchievementMapper.java:27-39 | applying an update twice equals applying it once |
| Service.WriteViolation | src/main/java/com/example/achievement_tracker/persistence/model/Achievement.java:52-61 | a write is accepted exactly when the title is non-empty, at most 50 characters and held by no other stored entity, and the description and every tag fit the 255-character default column; an empty or over-long title gets its declared message, checked before the columns |
| Service.AcceptedWriteKeepsTitlesUnique | src/main/java/com/example/achievement_tracker/persistence/model/Achievement.java:52 | an accepted write keeps stored titles unique |
| Service.Without | src/main/java/com/example/achievement_tracker/service/implementation/AchievementServiceImpl.java:106 | deleting an id from the listing removes exactly that id and keeps the rest in ascending order |
| Service.RecordDoesNotExistMessageExample | src/main/java/com/example/achievement_tracker/service/implementation/AchievementServiceImpl.java:102-105 | deleting missing id 123 reports "Cannot delete: Achievement with ID 123 does not exist!" |
| Service.RecordDoesNotExistMessage | src/main/java/com/example/achievement_tracker/service/implementation/AchievementServiceImpl.java:103-104 | the delete message has the id's decimal rendering between its fixed prefix and suffix |
| Service.RecordDoesNotExistMessageInjective | src/main/java/com/example/achievement_tracker/service/implementation/AchievementServiceImpl.java:103-104 | different ids give different delete messages |
| Service.AchievementService.constructor | src/main/java/com/example/achievement_tracker/service/implementation/AchievementServiceImpl.java:38-41 | a new service has an empty store satisfying the invariant, with ids starting at 1 |
| Service.AchievementService.CreateAchievement | src/main/java/com/example/achievement_tracker/service/implementation/AchievementServiceImpl.java:43-50 | succeeds exactly when mapping and the write succeed; the store then grows by one entry under a fresh, never-used id, which is appended to the listing; the result is the saved entity's read model, with the request's title and status; any failure leaves the store unchanged |
| Service.AchievementService.GetAchievementById | src/main/java/com/example/achievement_tracker/service/implementation/AchievementServiceImpl.java:53-56 | empty for an id not stored, otherwise the stored entity's read model; the store is not changed |
| Service.AchievementService.GetAchievementByTitle | src/main/java/com/example/achievement_tracker/service/implementation/AchievementServiceImpl.java:59-65 | empty exactly when no stored entity has that exact title, otherwise the read model of the one that has it |
| Service.AchievementService.GetAllAchievements | src/main/java/com/example/achievement_tracker/service/implementation/AchievementServiceImpl.java:68-73 | one read model per stored entity, in listing order; empty exactly when the store is empty |
| Service.AchievementService.UpdateAchievement | src/main/java/com/example/achievement_tracker/service/implementation/AchievementServiceImpl.java:76-98 | a null id fails; an id not stored gives an empty result and changes nothing; otherwise the partial update is written to that entry only, keeping its id, and its read model is returned; a bad status or rejected title fails and changes nothing |
| Service.AchievementService.DeleteAchievement | src/main/java/com/example/achievement_tracker/service/implementation/AchievementServiceImpl.java:101-107 | a missing id fails naming the id and changes nothing; a present id is removed alone, so the store shrinks by one and a later lookup of it is empty |

`Service.ServiceSession` is a client of the service that replays the main scenarios:
- a create with defaults;
- a read;
- a rejected status;
- a rejected duplicate title;
- a delete, then a lookup of the deleted id, which is empty;
- a second delete of the same id, which fails.

## Left out

- HTTP controllers, the view controller, the static JavaScript, and the Spring, JPA, Lombok and MapStruct machinery are not part of this model. Dependency injection is replaced by the class holding its store directly.
- The repository is not modelled as a separate component. The service's store is a map plus a listing order, so `findByStatus` (which the service never calls) is not part of this model.
- The mapper type the service imports (`utility.AchievementMapper`) is not part of this model. The persistence-layer mapper, whose contract matches the service's calls, stands in for it.
- The Java sources of `UpdateAchievementDTO` and `StatusEnum` are not available. Their shapes come from the builder calls in src/test/java/com/example/achievement_tracker/service/implementation/AchievementServiceImplTest.java:88-97 and from the three statuses src/main/resources/static/js/status_distribution_chart.js:4-8 counts.
- Ids are unbounded integers starting at 1 and increasing by one. The 64-bit range of `Long`, and the gaps a database sequence leaves after failed inserts or pooled allocation, are not modelled.
- `findAll` is modelled to list entities in insertion order, which is ascending id order. The database gives no such guarantee.
- Title length is counted in Dafny characters, whereas Java counts UTF-16 code units.
- The duplicate-title error carries the title, not the storage engine's message text. The column-length error and a null id carry no message.
- The ids taken by `GetAchievementById` and `DeleteAchievement` are never null, because they come from path variables. A null update request is not modelled either.
- Service.AchievementService.UpdateAchievement: models the update on values. The fetched entity is replaced in the store by the updated value. Aliasing of the managed entity, and a partial in-memory update before a failing status conversion, are not modelled: the rollback discards both.
- Concurrency and transaction isolation are not modelled. Every call runs alone and either completes or leaves the store unchanged.
- Bean Validation on the transfer records is not modelled. Those constraints are enforced before the service is called.
