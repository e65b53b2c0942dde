/** The module-level `repositories` array and the route handlers that change
    it in place: `push` on create, index assignment on update and like,
    `splice` on delete. Each of these handlers is proved to leave the
    collection, and to answer, exactly as the matching function of
    `Handlers` says; listing returns the collection and changes nothing. */
module App {
  import opened JsonValues
  import opened Records
  import Handlers

  class RepositoryStore {
    /** The records, in insertion order. */
    var repositories: seq<Repo>
    /** The UUID-format test the id gate applies (a library call). */
    const isUuid: string -> bool

    constructor (isUuid: string -> bool)
      ensures repositories == [] && this.isUuid == isUuid
    {
      repositories := [];
      this.isUuid := isUuid;
    }

    /** GET /repositories: a copy of the whole collection, in order. */
    method List() returns (all: seq<Repo>)
      ensures all == repositories
    {
      all := repositories[..];
    }

    /** POST /repositories. `newId` is the id the UUID generator produced. */
    method Create(body: Body, newId: string) returns (reply: Handlers.Reply)
      requires isUuid(newId)
      modifies this
      ensures Handlers.Outcome(reply, repositories) == Handlers.Create(old(repositories), body, newId)
      ensures reply.Json? ==> isUuid(reply.repo.id)
    {
      if !CreationValid(body) {
        return Handlers.InvalidParams;
      }
      var repository := Repo(newId, body.title.value, body.url.value, body.techs.value, 0);
      repositories := repositories + [repository];
      reply := Handlers.Json(repository);
    }

    /** PUT /repositories/:id. */
    method Update(id: string, body: Body) returns (reply: Handlers.Reply)
      modifies this
      ensures Handlers.Outcome(reply, repositories) == Handlers.Update(old(repositories), id, body, isUuid)
    {
      if !IdValid(repositories, id, isUuid) {
        return Handlers.NotFound;
      }
      var index := IndexOf(repositories, id);
      var repository := repositories[index];
      var updated := Handlers.Merge(repository, body);
      repositories := repositories[index := updated];
      reply := Handlers.Json(updated);
    }

    /** DELETE /repositories/:id. */
    method Delete(id: string) returns (reply: Handlers.Reply)
      modifies this
      ensures Handlers.Outcome(reply, repositories) == Handlers.Delete(old(repositories), id, isUuid)
    {
      if !IdValid(repositories, id, isUuid) {
        return Handlers.NotFound;
      }
      var index := IndexOf(repositories, id);
      repositories := repositories[..index] + repositories[index + 1..];
      reply := Handlers.NoContent;
    }

    /** POST /repositories/:id/like. */
    method Like(id: string) returns (reply: Handlers.Reply)
      modifies this
      ensures Handlers.Outcome(reply, repositories) == Handlers.Like(old(repositories), id, isUuid)
    {
      if !IdValid(repositories, id, isUuid) {
        return Handlers.NotFound;
      }
      var index := IndexOf(repositories, id);
      var repository := repositories[index];
      var updated := repository.(likes := repository.likes + 1);
      repositories := repositories[index := updated];
      reply := Handlers.Json(updated);
    }
  }

  /** A client of the store: create a record with a fresh store, like it
      twice, read it back, delete it and list what is left. */
  method LikeTwiceThenDelete(isUuid: string -> bool, newId: string, body: Body)
    returns (likes: nat, remaining: seq<Repo>)
    requires isUuid(newId) && CreationValid(body)
    ensures likes == 2 && remaining == []
  {
    var store := new RepositoryStore(isUuid);
    var created := store.Create(body, newId);
    Handlers.CreateThenFound([], body, newId, isUuid);
    var first := store.Like(newId);
    var second := store.Like(newId);
    likes := second.repo.likes;
    var deleted := store.Delete(newId);
    remaining := store.List();
  }
}
