/** `GenericRestController<T, ID>`: five CRUD endpoints over an `IBaseService` store. The
    controller holds no state of its own: `create`, `update` and `delete` change the
    store through `save` and `deleteById`, `getAll` and `getById` only read it. */
module GenericRestController {
  import opened Wrappers
  import opened Http
  import opened BaseService

  /** The statuses the endpoints answer with. */
  const EndpointStatuses: set<Status> := {OK, CREATED, NO_CONTENT, NOT_FOUND}

  class Controller<T(==), ID(==)> {
    const service: EntityService<T, ID>

    constructor (service: EntityService<T, ID>)
      ensures this.service == service
    {
      this.service := service;
    }

    /** `POST /`: saves the body once and answers 201 with what `save` returned;
        `persisted` is what persistence makes of the body. */
    method Create(entity: T, persisted: T) returns (r: ResponseEntity<T>)
      requires service.Valid()
      modifies service
      ensures service.Valid()
      ensures r.status == CREATED && r.status in EndpointStatuses
      ensures r.body == Some(persisted)
      ensures service.entities == old(service.entities)[service.idOf(r.body.value) := r.body.value]
    {
      var created := service.Save(entity, persisted);
      r := ResponseEntity(Some(created), CREATED);
    }

    /** `GET /`: 200 with every stored entity exactly once. */
    method GetAll() returns (r: ResponseEntity<seq<T>>)
      requires service.Valid()
      ensures r.status == OK && r.status in EndpointStatuses
      ensures r.body.Some? && |r.body.value| == |service.entities|
      ensures forall e :: e in r.body.value <==> e in service.entities.Values
      ensures forall i, j :: 0 <= i < j < |r.body.value| ==> r.body.value[i] != r.body.value[j]
    {
      var entities := service.FindAll();
      r := ResponseEntity(Some(entities), OK);
    }

    /** `GET /{id}`: 200 with the stored entity when there is one, otherwise 404 and no body. */
    method GetById(id: ID) returns (r: ResponseEntity<T>)
      requires service.Valid()
      ensures r.status in EndpointStatuses
      ensures r.status == OK <==> id in service.entities
      ensures r.status == OK ==> r.body == Some(service.entities[id])
      ensures r.status != OK ==> r == ResponseEntity(None, NOT_FOUND)
    {
      var entity := service.FindById(id);
      match entity
      case Some(value) => r := ResponseEntity(Some(value), OK);
      case None => r := ResponseEntity(None, NOT_FOUND);
    }

    /** `PUT /{id}`: 404 without saving when `id` is not stored; otherwise saves the body and
        answers 200 with what `save` returned. The path `id` only guards: the body is saved
        under its own identifier, which need not be `id`. `persisted` is what persistence
        makes of the body. */
    method Update(id: ID, entity: T, persisted: T) returns (r: ResponseEntity<T>)
      requires service.Valid()
      modifies service
      ensures service.Valid()
      ensures r.status in EndpointStatuses
      ensures id !in old(service.entities) ==> r == ResponseEntity(None, NOT_FOUND) && service.entities == old(service.entities)
      ensures id in old(service.entities) ==>
                && r.status == OK
                && r.body == Some(persisted)
                && service.entities == old(service.entities)[service.idOf(r.body.value) := r.body.value]
    {
      var found := service.ExistsById(id);
      if !found {
        return ResponseEntity(None, NOT_FOUND);
      }
      var updated := service.Save(entity, persisted);
      r := ResponseEntity(Some(updated), OK);
    }

    /** `DELETE /{id}`: 404 without deleting when `id` is not stored; otherwise deletes it
        and answers 204 with no body. The guard makes the failure of `deleteById` on a
        missing identifier unreachable from here. */
    method Delete(id: ID) returns (r: ResponseEntity<()>)
      requires service.Valid()
      modifies service
      ensures service.Valid()
      ensures r.status in EndpointStatuses && r.body == None
      ensures r.status == NO_CONTENT <==> id in old(service.entities)
      ensures r.status != NO_CONTENT ==> r.status == NOT_FOUND && service.entities == old(service.entities)
      ensures r.status == NO_CONTENT ==> id !in service.entities && service.entities == old(service.entities) - {id}
    {
      var found := service.ExistsById(id);
      if !found {
        return ResponseEntity(None, NOT_FOUND);
      }
      var outcome := service.DeleteById(id);
      assert outcome == Pass;
      r := ResponseEntity(None, NO_CONTENT);
    }
  }
}

/** A client of the controller: two `POST`s of the same body whose saves get two generated
    identifiers store two entities. */
method TwoPostsOfOneBody()
{
  var store := new BaseService.EntityService<int, int>(e => e);
  var controller := new GenericRestController.Controller(store);
  var first := controller.Create(0, 1);
  var second := controller.Create(0, 2);
  assert first.body != second.body;
  assert store.entities.Keys == {1, 2};
  assert |store.entities| == 2;
}
