/** The achievement service over its keyed store. The JPA repository is replaced by the
    store itself: a map from generated id to entity, the ids in the order the store lists
    them, and the next id its sequence will hand out. */
module Service {
  import opened Wrappers
  import opened StatusEnum
  import opened Entity
  import opened Dto
  import opened Mapper
  import opened Decimal

  /** What a service call can fail with. */
  datatype ServiceError =
    | MappingFailed(cause: MapperError)     // thrown by the mapper
    | ConstraintViolation(message: string)  // the title breaks @NotEmpty or @Length(max = 50) on write
    | ValueTooLong                          // the description or a tag exceeds its column's length
    | DuplicateTitle(title: string)         // the unique constraint on the title column
    | MissingId                             // a lookup by a null id
    | RecordDoesNotExist(id: int)           // delete of an id the store does not hold

  /** The messages the entity's title constraints declare. */
  const EmptyTitleMessage: string := "Title cannot be empty."
  const LongTitleMessage: string := "Title length exceeds the allowed limit."

  /** The message of the RecordDoesNotExistException thrown by a delete of a missing id. */
  function RecordDoesNotExistMessage(id: int): (m: string)
    ensures |m| == 35 + |LongToString(id)| + 16
    ensures m[35..|m| - 16] == LongToString(id)
  {
    "Cannot delete: Achievement with ID " + LongToString(id) + " does not exist!"
  }

  /** Different ids give different messages: the message identifies the missing record. */
  lemma RecordDoesNotExistMessageInjective(i: int, j: int)
    requires RecordDoesNotExistMessage(i) == RecordDoesNotExistMessage(j)
    ensures i == j
  {
    var m := RecordDoesNotExistMessage(i);
    assert LongToString(i) == m[35..|m| - 16] == LongToString(j);
    LongToStringInjective(i, j);
  }

  /** The message names the id in decimal, as the service test expects for id 123. */
  lemma RecordDoesNotExistMessageExample()
    ensures RecordDoesNotExistMessage(123) == "Cannot delete: Achievement with ID 123 does not exist!"
  {
    RenderedId123();
    assert RecordDoesNotExistMessage(123) == "Cannot delete: Achievement with ID " + "123" + " does not exist!";
  }

  lemma RenderedId123()
    ensures LongToString(123) == "123"
  {
    assert Digits(12) == "12";
  }

  /** The ids in strictly ascending order. */
  predicate Increasing(s: seq<int>) {
    forall i, j :: 0 <= i < j < |s| ==> s[i] < s[j]
  }

  /** No two stored entities share a title (the unique constraint on the column). */
  predicate TitlesUnique(store: map<int, Achievement>) {
    forall j, k :: j in store && k in store && store[j].title == store[k].title ==> j == k
  }

  /** Does an entity other than the one at `slot` already hold `title`? */
  predicate TitleTaken(store: map<int, Achievement>, title: string, slot: int) {
    exists k :: k in store && k != slot && store[k].title == title
  }

  /** Why writing `e` to the store at `slot` is refused, if it is: the title constraints
      are checked before the insert or update, the column lengths and the unique
      constraint by it. */
  function WriteViolation(store: map<int, Achievement>, e: Achievement, slot: int): (v: Option<ServiceError>)
    ensures v.None? <==> ValidTitle(e.title) && FitsColumns(e) && !TitleTaken(store, e.title, slot)
    ensures |e.title| == 0 ==> v == Some(ConstraintViolation(EmptyTitleMessage))
    ensures |e.title| > MaxTitleLength ==> v == Some(ConstraintViolation(LongTitleMessage))
    ensures ValidTitle(e.title) && !FitsColumns(e) ==> v == Some(ValueTooLong)
    ensures ValidTitle(e.title) && FitsColumns(e) && v.Some? ==> v.value == DuplicateTitle(e.title)
  {
    if |e.title| == 0 then Some(ConstraintViolation(EmptyTitleMessage))
    else if |e.title| > MaxTitleLength then Some(ConstraintViolation(LongTitleMessage))
    else if !FitsColumns(e) then Some(ValueTooLong)
    else if TitleTaken(store, e.title, slot) then Some(DuplicateTitle(e.title))
    else None
  }

  /** A write the store accepts keeps titles unique. */
  lemma AcceptedWriteKeepsTitlesUnique(store: map<int, Achievement>, e: Achievement, slot: int)
    requires TitlesUnique(store)
    requires WriteViolation(store, e, slot).None?
    ensures TitlesUnique(store[slot := e])
  {
  }

  /** `s` with every occurrence of `x` removed, order kept. */
  function Without(s: seq<int>, x: int): (r: seq<int>)
    ensures forall y :: y in r <==> y in s && y != x
    ensures Increasing(s) ==> Increasing(r)
    ensures |r| <= |s|
  {
    if s == [] then []
    else if s[0] == x then Without(s[1..], x)
    else
      var rest := Without(s[1..], x);
      assert Increasing(s) ==> Increasing([s[0]] + rest) by {
        if Increasing(s) {
          assert Increasing(s[1..]);
          forall y | y in rest ensures s[0] < y {
            var j :| 0 <= j < |s[1..]| && s[1..][j] == y;
            assert s[j + 1] == y;
          }
          PrependIncreasing(s[0], rest);
        }
      }
      [s[0]] + rest
  }

  lemma PrependIncreasing(a: int, rest: seq<int>)
    requires Increasing(rest)
    requires forall y :: y in rest ==> a < y
    ensures Increasing([a] + rest)
  {
    forall i, j | 0 <= i < j < |rest| + 1
      ensures ([a] + rest)[i] < ([a] + rest)[j]
    {
      assert rest[j - 1] in rest;
    }
  }

  lemma AppendIncreasing(s: seq<int>, x: int)
    requires Increasing(s)
    requires forall i :: 0 <= i < |s| ==> s[i] < x
    ensures Increasing(s + [x])
  {
  }

  class AchievementService {
    /** The stored entities, keyed by their generated id. */
    var store: map<int, Achievement>
    /** The stored ids in the order `findAll` lists them: insertion order, which is ascending. */
    var order: seq<int>
    /** The id the store's sequence hands out next; ids start at 1 and are never reused. */
    var nextId: int

    ghost predicate Valid()
      reads this
    {
      && 1 <= nextId
      && (forall k :: k in store ==> 1 <= k < nextId && store[k].id == Some(k) && ValidTitle(store[k].title) && FitsColumns(store[k]))
      && (forall k :: k in store <==> k in order)
      && (forall i :: 0 <= i < |order| ==> order[i] in store)
      && Increasing(order)
      && TitlesUnique(store)
    }

    /** An empty store. */
    constructor ()
      ensures Valid()
      ensures store == map[] && order == [] && nextId == 1
    {
      store := map[];
      order := [];
      nextId := 1;
    }

    /** `createAchievement`: map the request, save it under a fresh id, map the saved entity
        back. A failure at either step leaves the store as it was. */
    method CreateAchievement(request: Option<CreateAchievementDTO>) returns (r: Result<AchievementDTO, ServiceError>)
      requires Valid()
      modifies this
      ensures Valid()
      ensures ToEntity(request).Err? ==> r == Err(MappingFailed(ToEntity(request).error))
      ensures ToEntity(request).Ok? ==>
                var v := WriteViolation(old(store), ToEntity(request).value, old(nextId));
                v.Some? ==> r == Err(v.value)
      ensures r.Ok? <==> ToEntity(request).Ok? && WriteViolation(old(store), ToEntity(request).value, old(nextId)).None?
      ensures r.Err? ==> store == old(store) && order == old(order) && nextId == old(nextId)
      ensures r.Ok? ==>
                && ToEntity(request).Ok?
                && old(nextId) !in old(store)
                && store == old(store)[old(nextId) := ToEntity(request).value.(id := Some(old(nextId)))]
                && order == old(order) + [old(nextId)]
                && nextId == old(nextId) + 1
                && |store| == |old(store)| + 1
                && r.value == Project(store[old(nextId)])
                && r.value.id == Some(old(nextId))
                && Some(r.value.title) == request.value.title
                && Some(r.value.status) == request.value.status
    {
      var mapped := ToEntity(request);
      if mapped.Err? {
        return Err(MappingFailed(mapped.error));
      }
      var id := nextId;
      var saved := mapped.value.(id := Some(id));
      var violation := WriteViolation(store, mapped.value, id);
      if violation.Some? {
        return Err(violation.value);
      }
      assert WriteViolation(store, saved, id).None?;
      assert ValidTitle(saved.title) && FitsColumns(saved);
      AcceptedWriteKeepsTitlesUnique(store, saved, id);
      assert forall i :: 0 <= i < |order| ==> order[i] < id;
      AppendIncreasing(order, id);
      store := store[id := saved];
      assert store.Keys == old(store).Keys + {id};
      order := order + [id];
      nextId := nextId + 1;
      r := Ok(Project(saved));
    }

    /** `getAchievementById`: the mapped entity, or nothing when the id is not stored. */
    method GetAchievementById(id: int) returns (r: Option<AchievementDTO>)
      requires Valid()
      ensures id !in store ==> r.None?
      ensures id in store ==> r == Some(Project(store[id]))
      ensures r.Some? ==> r.value.id == Some(id)
    {
      if id in store {
        r := Some(Project(store[id]));
      } else {
        r := None;
      }
    }

    /** `getAchievementByTitle`: the mapped entity with exactly this title, or nothing. */
    method GetAchievementByTitle(title: string) returns (r: Option<AchievementDTO>)
      requires Valid()
      ensures r.None? <==> forall k :: k in store ==> store[k].title != title
      ensures forall k :: k in store && store[k].title == title ==> r == Some(Project(store[k]))
    {
      if k :| k in store && store[k].title == title {
        r := Some(Project(store[k]));
      } else {
        r := None;
      }
    }

    /** `getAllAchievements`: one read model per stored entity, in store order. */
    method GetAllAchievements() returns (r: seq<AchievementDTO>)
      requires Valid()
      ensures |r| == |order|
      ensures forall i :: 0 <= i < |order| ==> r[i] == Project(store[order[i]])
      ensures r == [] <==> store == map[]
    {
      r := [];
      for i := 0 to |order|
        invariant |r| == i
        invariant forall j :: 0 <= j < i ==> r[j] == Project(store[order[j]])
      {
        r := r + [Project(store[order[i]])];
      }
      if order != [] {
        assert order[0] in store;
      } else {
        assert forall k :: k in store ==> k in order;
      }
    }

    /** `updateAchievement`: nothing for an id that is not stored; otherwise the partial update
        is applied to the stored entity and saved, and the result mapped back. Only that entry
        changes, and it keeps its id. */
    method UpdateAchievement(request: UpdateAchievementDTO) returns (r: Result<Option<AchievementDTO>, ServiceError>)
      requires Valid()
      modifies this
      ensures Valid()
      ensures order == old(order) && nextId == old(nextId)
      ensures request.id.None? ==> r == Err(MissingId)
      ensures request.id.Some? && request.id.value !in old(store) ==> r == Ok(None)
      ensures request.id.Some? && request.id.value in old(store) ==>
                var id := request.id.value;
                var updated := ApplyUpdate(request, old(store)[id]);
                if updated.Err? then r == Err(MappingFailed(updated.error))
                else if WriteViolation(old(store), updated.value, id).Some? then
                  r == Err(WriteViolation(old(store), updated.value, id).value)
                else
                  && store == old(store)[id := updated.value]
                  && store[id].id == old(store)[id].id
                  && r == Ok(Some(Project(updated.value)))
      ensures r.Err? || r == Ok(None) ==> store == old(store)
      ensures forall k :: k in old(store) && Some(k) != request.id ==> k in store && store[k] == old(store)[k]
      ensures store.Keys == old(store).Keys
    {
      if request.id.None? {
        return Err(MissingId);
      }
      var id := request.id.value;
      if id !in store {
        return Ok(None);
      }
      var updated := ApplyUpdate(request, store[id]);
      if updated.Err? {
        return Err(MappingFailed(updated.error));
      }
      var violation := WriteViolation(store, updated.value, id);
      if violation.Some? {
        return Err(violation.value);
      }
      AcceptedWriteKeepsTitlesUnique(store, updated.value, id);
      store := store[id := updated.value];
      r := Ok(Some(Project(updated.value)));
    }

    /** `deleteAchievement`: an error naming the id when it is not stored; otherwise exactly
        that entry is removed. */
    method DeleteAchievement(id: int) returns (r: Result<(), ServiceError>)
      requires Valid()
      modifies this
      ensures Valid()
      ensures nextId == old(nextId)
      ensures id !in old(store) ==> r == Err(RecordDoesNotExist(id)) && store == old(store) && order == old(order)
      ensures id in old(store) ==> r == Ok(()) && store == old(store) - {id} && order == Without(old(order), id)
      ensures id in old(store) ==> |store| == |old(store)| - 1
      ensures id !in store
    {
      if id !in store {
        return Err(RecordDoesNotExist(id));
      }
      store := store - {id};
      assert old(store).Keys == store.Keys + {id};
      order := Without(order, id);
      r := Ok(());
    }
  }

  /** A client session: create, read, reject a bad status, delete, and fail a second delete. */
  method ServiceSession() {
    var service := new AchievementService();
    var created := service.CreateAchievement(Some(CreateAchievementDTO(Some("Read 10 Books"), None, None, None, None, Some("IN_PROGRESS"))));
    assert Parse("IN_PROGRESS") == Some(IN_PROGRESS);
    assert ValidTitle("Read 10 Books");
    assert created.Ok?;
    assert created.value.title == "Read 10 Books" && created.value.status == "IN_PROGRESS";
    assert created.value.description.None? && created.value.tags == Some({});
    var id := created.value.id.value;

    var found := service.GetAchievementById(id);
    assert found == Some(created.value);

    var bogus := service.CreateAchievement(Some(CreateAchievementDTO(Some("Other"), None, None, None, None, Some("BOGUS"))));
    assert bogus == Err(MappingFailed(InvalidStatus(Some("BOGUS"))));

    var twin := service.CreateAchievement(Some(CreateAchievementDTO(Some("Read 10 Books"), None, None, None, None, Some("TODO"))));
    assert twin.Err?;

    var deleted := service.DeleteAchievement(id);
    assert deleted.Ok?;
    found := service.GetAchievementById(id);
    assert found.None?;

    var again := service.DeleteAchievement(id);
    assert again == Err(RecordDoesNotExist(id));
    var all := service.GetAllAchievements();
    assert all == [];
  }
}
