/**
 * Request sequences that show what follows from the store never changing
 * its in-memory collection: later reads see the startup collection, and
 * every write starts again from it.
 */
module Scenarios {
  import opened Json
  import opened Schema
  import opened Tasks
  import opened Handlers

  /** Deleting the same id twice succeeds both times; the document lacks only the first match. */
  method DeleteTwice(store: TaskStore, id: string) returns (first: Response, second: Response)
    requires FindIndex(store.mem, IdIs(id)).Some?
    modifies store
    ensures first == TASK_DELETED && second == TASK_DELETED
    ensures var i := FindIndex(store.mem, IdIs(id)).value;
      store.disk == store.mem[..i] + store.mem[i + 1..]
  {
    first := store.Delete(id, false);
    second := store.Delete(id, false);
  }

  /** A task created with a new id is still not found by a later GET. */
  method CreateThenGet(store: TaskStore, body: Json, now: int) returns (created: Response, fetched: Response)
    requires IsValidTask(body) && "id" in body.fields && body.fields["id"].JStr?
    requires store.Get(body.fields["id"].s) == TASK_NOT_FOUND
    modifies store
    ensures created.status == 201 && store.disk == store.mem + [Stamped(body.fields, now)]
    ensures fetched == TASK_NOT_FOUND
  {
    created := store.Create(body, now, false);
    fetched := store.Get(body.fields["id"].s);
  }

  /** A deleted task is still found by a later GET. */
  method DeleteThenGet(store: TaskStore, id: string) returns (deleted: Response, fetched: Response)
    requires FindIndex(store.mem, IdIs(id)).Some?
    modifies store
    ensures deleted == TASK_DELETED
    ensures fetched.status == 200 && fetched.reply.OneTask? && Matches(fetched.reply.task, IdIs(id))
  {
    deleted := store.Delete(id, false);
    fetched := store.Get(id);
    FindIsFirstOfFilter(store.mem, IdIs(id));
  }

  /** Of two successful creations only the second reaches the document. */
  method CreateTwice(store: TaskStore, a: Json, b: Json, t1: int, t2: int) returns (first: Response, second: Response)
    requires IsValidTask(a) && IsValidTask(b)
    modifies store
    ensures first.status == 201 && second.status == 201
    ensures store.disk == store.mem + [Stamped(b.fields, t2)]
  {
    first := store.Create(a, t1, false);
    second := store.Create(b, t2, false);
  }
}
