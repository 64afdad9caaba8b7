/**
 * The task store and its six request handlers. The collection loaded at
 * startup (`mem`) is never changed: every mutation copies it, changes the
 * copy and overwrites the backing document (`disk`) with the copy.
 */
module Handlers {
  import opened Json
  import opened Schema
  import opened Tasks
  import opened Listing

  datatype Reply =
    | Tasks(tasks: seq<Task>)
    | OneTask(task: Task)
    | Message(text: string)

  datatype Response = Response(status: nat, reply: Reply)

  const TASK_NOT_FOUND := Response(404, Message("Task not found"))
  const INVALID_TASK_DATA := Response(400, Message("Invalid task data"))
  const INTERNAL_ERROR := Response(500, Message("Internal server error"))
  const TASK_DELETED := Response(200, Message("Task deleted"))

  /** The task `create` stores: the body with `createdAt` set to the current time. */
  function Stamped(body: map<string, Json>, now: int): (t: Task)
    ensures t.Keys == body.Keys + {"createdAt"} && t["createdAt"] == JNum(now)
    ensures forall k :: k in body && k != "createdAt" ==> t[k] == body[k]
  {
    body["createdAt" := JNum(now)]
  }

  /**
   * The task `update` stores: the body with `id` forced to the path id and
   * `createdAt` copied from the task it replaces. A replaced task without
   * `createdAt` assigns `undefined`, which the serialisation drops.
   */
  function Revised(body: map<string, Json>, id: string, previous: Task): (t: Task)
    ensures "id" in t && t["id"] == JStr(id)
    ensures "createdAt" in t <==> "createdAt" in previous
    ensures "createdAt" in t ==> t["createdAt"] == previous["createdAt"]
    ensures forall k :: k != "id" && k != "createdAt" ==> (k in t <==> k in body)
    ensures forall k :: k in t && k != "id" && k != "createdAt" ==> t[k] == body[k]
  {
    var withId := body["id" := JStr(id)];
    if "createdAt" in previous then withId["createdAt" := previous["createdAt"]]
    else withId - {"createdAt"}
  }

  /** `create` adds `createdAt` and nothing else: removing it gives back the accepted body. */
  lemma StampedRoundTrip(body: Json, now: int)
    requires IsValidTask(body)
    ensures Stamped(body.fields, now) - {"createdAt"} == body.fields
  {
    TaskSchemaMeaning(body);
    assert "createdAt" !in body.fields;
  }

  /** A created task is not an acceptable body: sending it back to `update` is rejected. */
  lemma StampedRejected(body: map<string, Json>, now: int)
    ensures !IsValidTask(JObj(Stamped(body, now)))
  {
    CreatedAtRejected(JObj(Stamped(body, now)));
  }

  /** A created task has a valid date whenever the clock reading is one. */
  lemma StampedIsDated(body: map<string, Json>, now: int)
    requires -MAX_TIME <= now <= MAX_TIME
    ensures Stamp(Stamped(body, now)) == Some(now)
  {
  }

  /** A created task is listed only under the three schema levels, so `urgent` never finds it. */
  lemma StampedPriority(body: Json, now: int, level: string)
    requires IsValidTask(body)
    ensures Matches(Stamped(body.fields, now), PriorityIs(level)) ==> level in {"low", "medium", "high"}
  {
    PriorityOfValid(body);
  }

  /** The task written by `update` keeps the id and the `createdAt` of the task it replaces. */
  lemma RevisedKeepsIdentity(s: seq<Task>, id: string, body: map<string, Json>)
    requires FindIndex(s, IdIs(id)).Some?
    ensures var i := FindIndex(s, IdIs(id)).value;
      var t := Revised(body, id, s[i]);
      && t["id"] == s[i]["id"]
      && ("createdAt" in t <==> "createdAt" in s[i])
      && ("createdAt" in t ==> t["createdAt"] == s[i]["createdAt"])
  {
  }

  /** The document `delete` writes holds one task fewer carrying the id; none when the id was unique. */
  lemma RemovedFirstMatch(s: seq<Task>, id: string)
    requires FindIndex(s, IdIs(id)).Some?
    ensures var i := FindIndex(s, IdIs(id)).value;
      && |Filter(s[..i] + s[i + 1..], IdIs(id))| == |Filter(s, IdIs(id))| - 1
      && (|Filter(s, IdIs(id))| == 1 ==> FindIndex(s[..i] + s[i + 1..], IdIs(id)).None?)
  {
    var i := FindIndex(s, IdIs(id)).value;
    RemoveAtFilter(s, i, IdIs(id));
    FindIsFirstOfFilter(s[..i] + s[i + 1..], IdIs(id));
  }

  class TaskStore {
    /** `tasksData.tasks`: the collection as loaded at startup. */
    const mem: seq<Task>
    /** The tasks in the backing document, as last written. */
    var disk: seq<Task>

    /** Loading the document: memory and disk hold the same tasks. */
    constructor (loaded: seq<Task>)
      ensures mem == loaded && disk == loaded
    {
      mem := loaded;
      disk := loaded;
    }

    /**
     * GET /tasks: the tasks whose `completed` equals the decoded flag, in
     * stored order, or sorted newest first on a fresh array when `sort` is
     * given. An array or object `completed` makes `toLowerCase` throw.
     */
    method List(completed: QueryParam, sort: QueryParam) returns (r: Response)
      ensures CompletedFlag(completed).None? ==> r == INTERNAL_ERROR
      ensures CompletedFlag(completed).Some? ==>
        var selection := Filter(mem, CompletedIs(CompletedFlag(completed).value));
        && r.status == 200 && r.reply.Tasks?
        && (sort.Missing? ==> Selects(mem, r.reply.tasks, CompletedIs(CompletedFlag(completed).value)))
        && (!sort.Missing? ==> multiset(r.reply.tasks) == multiset(selection))
        && (!sort.Missing? && AllDated(selection) ==> NewestFirst(r.reply.tasks))
    {
      var flag := CompletedFlag(completed);
      if flag.None? {
        return INTERNAL_ERROR;
      }
      var filtered := Filter(mem, CompletedIs(flag.value));
      FilterSelects(mem, CompletedIs(flag.value));
      var a := new Task[|filtered|](k requires 0 <= k < |filtered| => filtered[k]);
      assert a[..] == filtered;
      if !sort.Missing? {
        SortNewestFirst(a);
      }
      r := Response(200, Tasks(a[..]));
    }

    /** GET /tasks/:id: the first task carrying the id, or 404. */
    function Get(id: string): (r: Response)
      ensures r.status == 404 <==> forall k :: 0 <= k < |mem| ==> !Matches(mem[k], IdIs(id))
      ensures Filter(mem, IdIs(id)) != [] ==> r == Response(200, OneTask(Filter(mem, IdIs(id))[0]))
      ensures Filter(mem, IdIs(id)) == [] ==> r == TASK_NOT_FOUND
    {
      FindIsFirstOfFilter(mem, IdIs(id));
      match FindIndex(mem, IdIs(id))
      case None => TASK_NOT_FOUND
      case Some(i) => Response(200, OneTask(mem[i]))
    }

    /** GET /tasks/priority/:level: the tasks with exactly that priority, in stored order; never an error. */
    function ByPriority(level: string): (r: Response)
      ensures r.status == 200 && r.reply.Tasks?
      ensures Selects(mem, r.reply.tasks, PriorityIs(level))
      ensures r.reply.tasks == [] <==> forall k :: 0 <= k < |mem| ==> !Matches(mem[k], PriorityIs(level))
    {
      FilterSelects(mem, PriorityIs(level));
      FilterEmptyIff(mem, PriorityIs(level));
      Response(200, Tasks(Filter(mem, PriorityIs(level))))
    }

    /**
     * POST /tasks. `writeFails` stands for a failure of the file write,
     * which the handler reports as 500.
     */
    method Create(body: Json, now: int, writeFails: bool) returns (r: Response)
      modifies this
      ensures !IsValidTask(body) ==> r == INVALID_TASK_DATA && disk == old(disk)
      ensures IsValidTask(body) && writeFails ==> r == INTERNAL_ERROR && disk == old(disk)
      ensures IsValidTask(body) && !writeFails ==>
        && disk == mem + [Stamped(body.fields, now)]
        && r == Response(201, OneTask(Stamped(body.fields, now)))
    {
      var modified := mem;
      if IsValidTask(body) {
        var task := Stamped(body.fields, now);
        modified := modified + [task];
        if writeFails {
          r := INTERNAL_ERROR;
        } else {
          disk := modified;
          r := Response(201, OneTask(task));
        }
      } else {
        r := INVALID_TASK_DATA;
      }
    }

    /** DELETE /tasks/:id: removes the first task carrying the id from a copy and writes the copy. */
    method Delete(id: string, writeFails: bool) returns (r: Response)
      modifies this
      ensures FindIndex(mem, IdIs(id)).None? ==> r == TASK_NOT_FOUND && disk == old(disk)
      ensures FindIndex(mem, IdIs(id)).Some? && writeFails ==> r == INTERNAL_ERROR && disk == old(disk)
      ensures FindIndex(mem, IdIs(id)).Some? && !writeFails ==>
        var i := FindIndex(mem, IdIs(id)).value;
        r == TASK_DELETED && disk == mem[..i] + mem[i + 1..]
    {
      var index := FindIndex(mem, IdIs(id));
      var modified := mem;
      if index.Some? {
        var i := index.value;
        modified := modified[..i] + modified[i + 1..];
        if writeFails {
          r := INTERNAL_ERROR;
        } else {
          disk := modified;
          r := TASK_DELETED;
        }
      } else {
        r := TASK_NOT_FOUND;
      }
    }

    /**
     * PUT /tasks/:id. The body is validated before the id is looked up, so
     * an invalid body is 400 even for an unknown id.
     */
    method Update(id: string, body: Json, writeFails: bool) returns (r: Response)
      modifies this
      ensures !IsValidTask(body) ==> r == INVALID_TASK_DATA && disk == old(disk)
      ensures IsValidTask(body) && FindIndex(mem, IdIs(id)).None? ==> r == TASK_NOT_FOUND && disk == old(disk)
      ensures IsValidTask(body) && FindIndex(mem, IdIs(id)).Some? && writeFails ==>
        r == INTERNAL_ERROR && disk == old(disk)
      ensures IsValidTask(body) && FindIndex(mem, IdIs(id)).Some? && !writeFails ==>
        var i := FindIndex(mem, IdIs(id)).value;
        var t := Revised(body.fields, id, mem[i]);
        disk == mem[i := t] && r == Response(200, OneTask(t))
    {
      var modified := mem;
      if IsValidTask(body) {
        var index := FindIndex(modified, IdIs(id));
        if index.Some? {
          var i := index.value;
          var t := Revised(body.fields, id, modified[i]);
          modified := modified[i := t];
          if writeFails {
            r := INTERNAL_ERROR;
          } else {
            disk := modified;
            r := Response(200, OneTask(t));
          }
        } else {
          r := TASK_NOT_FOUND;
        }
      } else {
        r := INVALID_TASK_DATA;
      }
    }
  }
}
