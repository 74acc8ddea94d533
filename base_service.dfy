/** `IBaseService<T, ID>`: the CRUD contract of an ID-keyed entity store. The model is a
    store that keeps its entities in a map from identifier to entity and satisfies the
    contract's documentation. How an entity yields its identifier (`idOf`) is a parameter
    of the store. What the persistence layer makes of an entity when it is saved is an
    input of each save (`persisted`), like a clock reading: it may carry a freshly
    generated identifier or differ from the given entity in any other way, so two saves
    of equal entities may store two entities. */
module BaseService {
  import opened Wrappers

  /** The exceptions the contract documents. */
  datatype StoreError =
    | IllegalArgument          // a `null` iterable or entity
    | EmptyResultDataAccess    // `deleteById` of an identifier that is not stored

  /** The entities stored by saving `saved`, in order, into `m`: each goes under its own
      identifier and replaces whatever was there. */
  function StoreAll<T, ID>(idOf: T -> ID, m: map<ID, T>, saved: seq<T>): map<ID, T>
    decreases |saved|
  {
    if saved == [] then m
    else
      var last := saved[|saved| - 1];
      StoreAll(idOf, m, saved[..|saved| - 1])[idOf(last) := last]
  }

  /** The identifiers of some entities. */
  function IdsOf<T(==), ID>(idOf: T -> ID, entities: seq<T>): (ids: set<ID>)
    ensures forall e :: e in entities ==> idOf(e) in ids
    ensures forall id :: id in ids ==> exists e :: e in entities && idOf(e) == id
  {
    set e | e in entities :: idOf(e)
  }

  /** Saving a batch stores exactly the old identifiers and those of the batch. */
  lemma {:induction false} StoreAllKeys<T, ID>(idOf: T -> ID, m: map<ID, T>, saved: seq<T>)
    ensures StoreAll(idOf, m, saved).Keys == m.Keys + IdsOf(idOf, saved)
    decreases |saved|
  {
    if saved != [] {
      var prefix := saved[..|saved| - 1];
      StoreAllKeys(idOf, m, prefix);
      assert saved == prefix + [saved[|saved| - 1]];
    }
  }

  /** Saving a batch keeps every entity filed under its own identifier. */
  lemma {:induction false} StoreAllKeepsIds<T, ID>(idOf: T -> ID, m: map<ID, T>, saved: seq<T>)
    requires forall id :: id in m ==> idOf(m[id]) == id
    ensures forall id :: id in StoreAll(idOf, m, saved) ==> idOf(StoreAll(idOf, m, saved)[id]) == id
    decreases |saved|
  {
    if saved != [] {
      StoreAllKeepsIds(idOf, m, saved[..|saved| - 1]);
    }
  }

  /** An entity of the batch that no later entity of the batch replaces is the one stored
      under its identifier. */
  lemma {:induction false} StoreAllLastWins<T, ID>(idOf: T -> ID, m: map<ID, T>, saved: seq<T>, i: nat)
    requires i < |saved|
    requires forall j :: i < j < |saved| ==> idOf(saved[j]) != idOf(saved[i])
    ensures idOf(saved[i]) in StoreAll(idOf, m, saved)
    ensures StoreAll(idOf, m, saved)[idOf(saved[i])] == saved[i]
    decreases |saved|
  {
    var prefix := saved[..|saved| - 1];
    if i < |saved| - 1 {
      assert forall j :: i < j < |prefix| ==> prefix[j] == saved[j];
      StoreAllLastWins(idOf, m, prefix, i);
    }
  }

  class EntityService<T(==), ID(==)> {
    /** The stored entities, by identifier. */
    var entities: map<ID, T>
    /** The identifier of an entity. */
    const idOf: T -> ID

    /** Every entity is stored under its own identifier. */
    ghost predicate Valid()
      reads this
    {
      forall id :: id in entities ==> idOf(entities[id]) == id
    }

    constructor (idOf: T -> ID)
      ensures Valid()
      ensures entities == map[] && this.idOf == idOf
    {
      entities := map[];
      this.idOf := idOf;
    }

    /** `save(entity)`: stores what persistence made of the entity (`persisted`) under that
        result's own identifier and returns it; the caller must use the returned instance.
        The contract ties the result to `entity` in no other way. */
    method Save(entity: T, persisted: T) returns (saved: T)
      requires Valid()
      modifies this
      ensures Valid()
      ensures saved == persisted
      ensures idOf(saved) in entities && entities[idOf(saved)] == saved
      ensures entities == old(entities)[idOf(saved) := saved]
    {
      saved := persisted;
      entities := entities[idOf(saved) := saved];
    }

    /** `saveAll(entities)`: saves each entity in turn and returns the saved ones, one per
        input and in input order; a `null` iterable is rejected. `persisted[i]` is what
        persistence made of the `i`-th entity. */
    method SaveAll(input: Option<seq<T>>, persisted: seq<T>) returns (r: Result<seq<T>, StoreError>)
      requires Valid()
      requires input.Some? ==> |persisted| == |input.value|
      modifies this
      ensures Valid()
      ensures input.None? ==> r == Failure(IllegalArgument) && entities == old(entities)
      ensures input.Some? ==> r.Success? && |r.value| == |input.value| && r.value == persisted
      ensures input.Some? ==> entities == StoreAll(idOf, old(entities), r.value)
    {
      match input
      case None =>
        r := Failure(IllegalArgument);
      case Some(batch) =>
        StoreAllKeepsIds(idOf, entities, persisted);
        entities := StoreAll(idOf, entities, persisted);
        r := Success(persisted);
    }

    /** `findById(id)`: present exactly when an entity with that identifier is stored. */
    method FindById(id: ID) returns (r: Option<T>)
      requires Valid()
      ensures r.Some? <==> id in entities
      ensures r.Some? ==> r.value == entities[id] && idOf(r.value) == id
    {
      r := if id in entities then Some(entities[id]) else None;
    }

    /** `existsById(id)`: whether an entity with that identifier is stored. */
    method ExistsById(id: ID) returns (b: bool)
      ensures b <==> id in entities
    {
      b := id in entities;
    }

    /** `findAll()`: every stored entity exactly once, in no promised order. */
    method FindAll() returns (all: seq<T>)
      requires Valid()
      ensures |all| == |entities|
      ensures forall e :: e in all <==> e in entities.Values
      ensures forall i, j :: 0 <= i < j < |all| ==> all[i] != all[j]
    {
      all := [];
      var pending := entities.Keys;
      ghost var done: set<ID> := {};
      while pending != {}
        invariant pending + done == entities.Keys && pending !! done
        invariant |all| == |done|
        invariant forall i :: 0 <= i < |all| ==> idOf(all[i]) in done && entities[idOf(all[i])] == all[i]
        invariant forall id :: id in done ==> entities[id] in all
        invariant forall i, j :: 0 <= i < j < |all| ==> idOf(all[i]) != idOf(all[j])
        decreases pending
      {
        var id :| id in pending;
        all := all + [entities[id]];
        pending := pending - {id};
        done := done + {id};
      }
      assert done == entities.Keys;
    }

    /** `findAllById(ids)`: the stored entities among the given identifiers; missing
        identifiers give nothing, so there are at most as many entities as identifiers.
        The order is not promised. A `null` iterable is rejected. */
    method FindAllById(ids: Option<seq<ID>>) returns (r: Result<seq<T>, StoreError>)
      requires Valid()
      ensures ids.None? <==> r == Failure(IllegalArgument)
      ensures ids.Some? ==> r.Success? && |r.value| <= |ids.value|
      ensures ids.Some? ==> forall e :: e in r.value ==> idOf(e) in ids.value && idOf(e) in entities && entities[idOf(e)] == e
      ensures ids.Some? ==> forall id :: id in ids.value && id in entities ==> entities[id] in r.value
      ensures ids.Some? ==> forall i, j :: 0 <= i < j < |r.value| ==> r.value[i] != r.value[j]
    {
      match ids
      case None =>
        r := Failure(IllegalArgument);
      case Some(wanted) =>
        var found: seq<T> := [];
        var taken: set<ID> := {};
        for k := 0 to |wanted|
          invariant |found| <= k
          invariant forall e :: e in found ==> idOf(e) in taken
          invariant forall id :: id in taken ==> id in wanted[..k] && id in entities && entities[id] in found
          invariant forall e :: e in found ==> idOf(e) in entities && entities[idOf(e)] == e
          invariant forall i, j :: 0 <= i < j < |found| ==> found[i] != found[j]
          invariant forall id :: id in wanted[..k] && id in entities ==> id in taken
        {
          var id := wanted[k];
          if id in entities && id !in taken {
            found := found + [entities[id]];
            taken := taken + {id};
          }
        }
        assert wanted[..|wanted|] == wanted;
        r := Success(found);
    }

    /** `count()`: the number of stored entities. */
    method Count() returns (n: nat)
      ensures n == |entities.Keys|
    {
      n := |entities|;
    }

    /** `deleteById(id)`: removes the entity with that identifier, or throws
        `EmptyResultDataAccessException` and changes nothing when there is none. */
    method DeleteById(id: ID) returns (r: Outcome<StoreError>)
      requires Valid()
      modifies this
      ensures Valid()
      ensures r.Pass? <==> id in old(entities)
      ensures r.Fail? ==> r.error == EmptyResultDataAccess && entities == old(entities)
      ensures r.Pass? ==> entities == old(entities) - {id}
    {
      if id in entities {
        entities := entities - {id};
        r := Pass;
      } else {
        r := Fail(EmptyResultDataAccess);
      }
    }

    /** `delete(entity)`: removes whatever is stored under the entity's identifier; a `null`
        entity is rejected. */
    method Delete(entity: Option<T>) returns (r: Outcome<StoreError>)
      requires Valid()
      modifies this
      ensures Valid()
      ensures entity.None? ==> r == Fail(IllegalArgument) && entities == old(entities)
      ensures entity.Some? ==> r == Pass && entities == old(entities) - {idOf(entity.value)}
    {
      match entity
      case None =>
        r := Fail(IllegalArgument);
      case Some(e) =>
        entities := entities - {idOf(e)};
        r := Pass;
    }

    /** `deleteAll(entities)`: removes exactly the given entities, by identifier; a `null`
        iterable is rejected. */
    method DeleteEntities(input: Option<seq<T>>) returns (r: Outcome<StoreError>)
      requires Valid()
      modifies this
      ensures Valid()
      ensures input.None? ==> r == Fail(IllegalArgument) && entities == old(entities)
      ensures input.Some? ==> r == Pass && entities == old(entities) - IdsOf(idOf, input.value)
    {
      match input
      case None =>
        r := Fail(IllegalArgument);
      case Some(batch) =>
        entities := entities - IdsOf(idOf, batch);
        r := Pass;
    }

    /** `deleteAll()`: afterwards the store is empty. */
    method DeleteAll()
      requires Valid()
      modifies this
      ensures Valid()
      ensures entities == map[]
    {
      entities := map[];
    }
  }
}
