/**
  The in-memory project-management service: three stores (projects, tasks, people), three id
  counters, and the fifteen handlers (list, get by id, create, update, delete for each
  resource) with the two clean-ups a delete performs on the task store. HTTP is reduced to a
  reply value carrying the status code and message the handler sends.
 */
module Server {
  import opened Values
  import opened Records

  /** What a handler sends back. */
  datatype Reply =
    | Listed(records: seq<Record>)
    | Found(record: Record)
    | Created(message: string, record: Record)
    | Updated(message: string, record: Record)
    | Deleted(message: string)
    | BadRequest(message: string)
    | NotFound(message: string)
  {
    function Status(): int
    {
      match this
      case Created(_, _) => 201
      case BadRequest(_) => 400
      case NotFound(_) => 404
      case _ => 200
    }
  }

  const ProjectNotFound := "Proyecto no encontrado"
  const TaskNotFound := "Tarea no encontrada"
  const PersonNotFound := "Persona no encontrada"
  const ProjectNameRequired := "El nombre es obligatorio y el cuerpo no debe estar vacío."
  const TaskFieldsRequired := "Título y projectID son obligatorios."
  const PersonFieldsRequired := "Nombre y email son obligatorios."

  /** The record each store holds when the process starts. The task has no id and no status. */
  const SeedProject: Record :=
    map["id" := Num(1), "name" := Str("Plataforma educativa"), "description" := Str("Sistema de cursos online")]
  const SeedTask: Record :=
    map["title" := Str("Diseñar Dashboard"), "description" := Str("Pantalla principal del líder"),
        "projectID" := Num(1), "assignedTo" := Num(1)]
  const SeedPerson: Record :=
    map["id" := Num(1), "name" := Str("James Montealegre"), "email" := Str("james@correo.com"),
        "role" := Str("Lider tecnico")]

  // ---------------------------------------------------------------------------------------
  // Create: validation and the record stored

  /** A project create is accepted when the body is present and its `name` is truthy. */
  predicate ProjectAccepted(body: Option<Record>)
  {
    body.Some? && Has(body.value, "name")
  }

  /** A task create is accepted when the body is present and `title` and `projectID` are truthy. */
  predicate TaskAccepted(body: Option<Record>)
  {
    body.Some? && Has(body.value, "title") && Has(body.value, "projectID")
  }

  /** A person create is accepted when the body is present and `name` and `email` are truthy. */
  predicate PersonAccepted(body: Option<Record>)
  {
    body.Some? && Has(body.value, "name") && Has(body.value, "email")
  }

  /** The project stored: the body as sent, with `id` overwritten by the counter. */
  function NewProject(body: Record, id: int): (p: Record)
    ensures p.Keys == body.Keys + {"id"} && p["id"] == Num(id)
    ensures forall f :: f in body && f != "id" ==> p[f] == body[f]
  {
    body["id" := Num(id)]
  }

  /** `parseInt(r[key])`, as the value the handler stores (`undefined` parses as `NaN`). */
  function ParsedField(r: Record, key: string): Value
  {
    NumberValue(if key in r then ParseInt(r[key]) else None)
  }

  /** The task stored: the counter's id, `status || "todo"`, `parseInt(projectID)`, and
      `parseInt(assignedTo)` only when `assignedTo` is truthy; every other field as sent. */
  function NewTask(body: Record, id: int): (t: Record)
    ensures t.Keys == body.Keys + {"id", "status", "projectID"}
    ensures t["id"] == Num(id)
    ensures Truthy(t["status"]) && (Has(body, "status") ==> t["status"] == body["status"])
    ensures !Has(body, "status") ==> t["status"] == Str("todo")
    ensures t["projectID"] == ParsedField(body, "projectID")
    ensures "assignedTo" in body ==>
              t["assignedTo"] == if Truthy(body["assignedTo"]) then ParsedField(body, "assignedTo") else body["assignedTo"]
    ensures forall f :: f in body && f != "id" && f != "status" && f != "projectID" && f != "assignedTo" ==> t[f] == body[f]
  {
    var status := if Has(body, "status") then body["status"] else Str("todo");
    var t := body["id" := Num(id)]["status" := status]["projectID" := ParsedField(body, "projectID")];
    if Has(body, "assignedTo") then t["assignedTo" := ParsedField(body, "assignedTo")] else t
  }

  /** The person stored: the counter's id and `role || "Miembro"`; every other field as sent. */
  function NewPerson(body: Record, id: int): (p: Record)
    ensures p.Keys == body.Keys + {"id", "role"}
    ensures p["id"] == Num(id)
    ensures Truthy(p["role"]) && (Has(body, "role") ==> p["role"] == body["role"])
    ensures !Has(body, "role") ==> p["role"] == Str("Miembro")
    ensures forall f :: f in body && f != "id" && f != "role" ==> p[f] == body[f]
  {
    var role := if Has(body, "role") then body["role"] else Str("Miembro");
    body["id" := Num(id)]["role" := role]
  }

  /** A task sent with a numeric `projectID` (or one written as a decimal string) is stored with
      that number; a string `assignedTo` that is a decimal number is stored as the number. */
  lemma NewTaskCoercesNumbers(body: Record, id: int, p: int, a: int)
    requires "projectID" in body && (body["projectID"] == Num(p) || body["projectID"] == Str(Decimal(p)))
    requires "assignedTo" in body && (body["assignedTo"] == Num(a) || body["assignedTo"] == Str(Decimal(a)))
    ensures NewTask(body, id)["projectID"] == Num(p)
    ensures NewTask(body, id)["assignedTo"] == Num(a)
  {
    ParseIntOfNumber(p);
    ParseIntOfNumber(a);
    if body["assignedTo"].Str? {
      assert Decimal(a) != [];
    }
  }

  /** The body of an update as spread by `...req.body`: spreading `undefined` adds nothing. */
  function BodyFields(body: Option<Record>): Record
  {
    match body
    case None => map[]
    case Some(r) => r
  }

  // ---------------------------------------------------------------------------------------
  // Get by id, shared by the three stores

  /** `s.find(r => r.id === id)`, answered with the record or a 404 carrying `missing`. */
  method Get(s: seq<Record>, id: Option<int>, missing: string) returns (reply: Reply)
    ensures reply.NotFound? <==> forall k :: 0 <= k < |s| ==> !Refers(s[k], "id", id)
    ensures reply.NotFound? ==> reply == NotFound(missing)
    ensures !reply.NotFound? ==> reply == Found(s[FirstIndex(s, id)])
    ensures reply.Found? ==> reply.record in s && Refers(reply.record, "id", id)
  {
    var found := Find(s, id);
    match found
    case None => reply := NotFound(missing);
    case Some(r) => reply := Found(r);
  }

  // ---------------------------------------------------------------------------------------
  // The service state

  class Service {
    var projects: seq<Record>
    var tasks: seq<Record>
    var people: seq<Record>
    var projectIdCounter: int
    var taskIdCounter: int
    var peopleIdCounter: int

    /** Ids are unique within each store and below that store's counter, which starts at 2. */
    ghost predicate Valid()
      reads this
    {
      && 2 <= projectIdCounter && 2 <= taskIdCounter && 2 <= peopleIdCounter
      && IdsBelow(projects, projectIdCounter) && IdsUnique(projects)
      && IdsBelow(tasks, taskIdCounter) && IdsUnique(tasks)
      && IdsBelow(people, peopleIdCounter) && IdsUnique(people)
    }

    /** The state at process start: one seeded record per store and every counter at 2. */
    constructor ()
      ensures Valid()
      ensures projects == [SeedProject] && tasks == [SeedTask] && people == [SeedPerson]
      ensures projectIdCounter == 2 && taskIdCounter == 2 && peopleIdCounter == 2
    {
      projects := [SeedProject];
      tasks := [SeedTask];
      people := [SeedPerson];
      projectIdCounter, taskIdCounter, peopleIdCounter := 2, 2, 2;
    }

    // ---- list

    method ListProjects() returns (reply: Reply)
      ensures reply == Listed(projects) && reply.Status() == 200
    {
      reply := Listed(projects);
    }

    method ListTasks() returns (reply: Reply)
      ensures reply == Listed(tasks) && reply.Status() == 200
    {
      reply := Listed(tasks);
    }

    method ListPeople() returns (reply: Reply)
      ensures reply == Listed(people) && reply.Status() == 200
    {
      reply := Listed(people);
    }

    // ---- get by id

    method GetProject(id: Option<int>) returns (reply: Reply)
      ensures reply.NotFound? <==> FirstIndex(projects, id) == -1
      ensures reply.NotFound? ==> reply == NotFound(ProjectNotFound) && reply.Status() == 404
      ensures !reply.NotFound? ==> reply == Found(projects[FirstIndex(projects, id)]) && reply.Status() == 200
    {
      reply := Get(projects, id, ProjectNotFound);
    }

    method GetTask(id: Option<int>) returns (reply: Reply)
      ensures reply.NotFound? <==> FirstIndex(tasks, id) == -1
      ensures reply.NotFound? ==> reply == NotFound(TaskNotFound) && reply.Status() == 404
      ensures !reply.NotFound? ==> reply == Found(tasks[FirstIndex(tasks, id)]) && reply.Status() == 200
    {
      reply := Get(tasks, id, TaskNotFound);
    }

    method GetPerson(id: Option<int>) returns (reply: Reply)
      ensures reply.NotFound? <==> FirstIndex(people, id) == -1
      ensures reply.NotFound? ==> reply == NotFound(PersonNotFound) && reply.Status() == 404
      ensures !reply.NotFound? ==> reply == Found(people[FirstIndex(people, id)]) && reply.Status() == 200
    {
      reply := Get(people, id, PersonNotFound);
    }

    // ---- create

    method CreateProject(body: Option<Record>) returns (reply: Reply)
      requires Valid()
      modifies this
      ensures Valid()
      ensures !ProjectAccepted(body) ==> reply == BadRequest(ProjectNameRequired) && unchanged(this)
      ensures ProjectAccepted(body) ==>
        && reply == Created("Proyecto creado", NewProject(body.value, old(projectIdCounter)))
        && projects == old(projects) + [reply.record]
        && projectIdCounter == old(projectIdCounter) + 1
        && tasks == old(tasks) && people == old(people)
        && taskIdCounter == old(taskIdCounter) && peopleIdCounter == old(peopleIdCounter)
        && FirstIndex(projects, Some(old(projectIdCounter))) == |old(projects)|
    {
      if !ProjectAccepted(body) {
        reply := BadRequest(ProjectNameRequired);
        return;
      }
      var project := NewProject(body.value, projectIdCounter);
      AppendFresh(projects, projectIdCounter, project);
      projectIdCounter := projectIdCounter + 1;
      projects := projects + [project];
      reply := Created("Proyecto creado", project);
    }

    method CreateTask(body: Option<Record>) returns (reply: Reply)
      requires Valid()
      modifies this
      ensures Valid()
      ensures !TaskAccepted(body) ==> reply == BadRequest(TaskFieldsRequired) && unchanged(this)
      ensures TaskAccepted(body) ==>
        && reply == Created("Tarea creada", NewTask(body.value, old(taskIdCounter)))
        && tasks == old(tasks) + [reply.record]
        && taskIdCounter == old(taskIdCounter) + 1
        && projects == old(projects) && people == old(people)
        && projectIdCounter == old(projectIdCounter) && peopleIdCounter == old(peopleIdCounter)
        && FirstIndex(tasks, Some(old(taskIdCounter))) == |old(tasks)|
    {
      if !TaskAccepted(body) {
        reply := BadRequest(TaskFieldsRequired);
        return;
      }
      var task := NewTask(body.value, taskIdCounter);
      AppendFresh(tasks, taskIdCounter, task);
      taskIdCounter := taskIdCounter + 1;
      tasks := tasks + [task];
      reply := Created("Tarea creada", task);
    }

    method CreatePerson(body: Option<Record>) returns (reply: Reply)
      requires Valid()
      modifies this
      ensures Valid()
      ensures !PersonAccepted(body) ==> reply == BadRequest(PersonFieldsRequired) && unchanged(this)
      ensures PersonAccepted(body) ==>
        && reply == Created("Persona creada", NewPerson(body.value, old(peopleIdCounter)))
        && people == old(people) + [reply.record]
        && peopleIdCounter == old(peopleIdCounter) + 1
        && projects == old(projects) && tasks == old(tasks)
        && projectIdCounter == old(projectIdCounter) && taskIdCounter == old(taskIdCounter)
        && FirstIndex(people, Some(old(peopleIdCounter))) == |old(people)|
    {
      if !PersonAccepted(body) {
        reply := BadRequest(PersonFieldsRequired);
        return;
      }
      var person := NewPerson(body.value, peopleIdCounter);
      AppendFresh(people, peopleIdCounter, person);
      peopleIdCounter := peopleIdCounter + 1;
      people := people + [person];
      reply := Created("Persona creada", person);
    }

    // ---- update

    method UpdateProject(id: Option<int>, body: Option<Record>) returns (reply: Reply)
      requires Valid()
      modifies this
      ensures Valid()
      ensures FirstIndex(old(projects), id) == -1 ==> reply == NotFound(ProjectNotFound) && unchanged(this)
      ensures var i := FirstIndex(old(projects), id);
        i != -1 ==>
          && reply == Updated("Proyecto actualizado", Merge(old(projects)[i], BodyFields(body), id.value))
          && projects == old(projects)[i := reply.record]
          && tasks == old(tasks) && people == old(people)
          && projectIdCounter == old(projectIdCounter) && taskIdCounter == old(taskIdCounter)
          && peopleIdCounter == old(peopleIdCounter)
    {
      var i := FindIndex(projects, id);
      if i == -1 {
        reply := NotFound(ProjectNotFound);
        return;
      }
      var merged := Merge(projects[i], BodyFields(body), id.value);
      ReplaceSameId(projects, projectIdCounter, i, merged);
      projects := projects[i := merged];
      reply := Updated("Proyecto actualizado", merged);
    }

    method UpdateTask(id: Option<int>, body: Option<Record>) returns (reply: Reply)
      requires Valid()
      modifies this
      ensures Valid()
      ensures FirstIndex(old(tasks), id) == -1 ==> reply == NotFound(TaskNotFound) && unchanged(this)
      ensures var i := FirstIndex(old(tasks), id);
        i != -1 ==>
          && reply == Updated("Tarea actualizada", Merge(old(tasks)[i], BodyFields(body), id.value))
          && tasks == old(tasks)[i := reply.record]
          && projects == old(projects) && people == old(people)
          && projectIdCounter == old(projectIdCounter) && taskIdCounter == old(taskIdCounter)
          && peopleIdCounter == old(peopleIdCounter)
    {
      var i := FindIndex(tasks, id);
      if i == -1 {
        reply := NotFound(TaskNotFound);
        return;
      }
      var merged := Merge(tasks[i], BodyFields(body), id.value);
      ReplaceSameId(tasks, taskIdCounter, i, merged);
      tasks := tasks[i := merged];
      reply := Updated("Tarea actualizada", merged);
    }

    method UpdatePerson(id: Option<int>, body: Option<Record>) returns (reply: Reply)
      requires Valid()
      modifies this
      ensures Valid()
      ensures FirstIndex(old(people), id) == -1 ==> reply == NotFound(PersonNotFound) && unchanged(this)
      ensures var i := FirstIndex(old(people), id);
        i != -1 ==>
          && reply == Updated("Persona actualizada", Merge(old(people)[i], BodyFields(body), id.value))
          && people == old(people)[i := reply.record]
          && projects == old(projects) && tasks == old(tasks)
          && projectIdCounter == old(projectIdCounter) && taskIdCounter == old(taskIdCounter)
          && peopleIdCounter == old(peopleIdCounter)
    {
      var i := FindIndex(people, id);
      if i == -1 {
        reply := NotFound(PersonNotFound);
        return;
      }
      var merged := Merge(people[i], BodyFields(body), id.value);
      ReplaceSameId(people, peopleIdCounter, i, merged);
      people := people[i := merged];
      reply := Updated("Persona actualizada", merged);
    }

    // ---- delete

    /** Deleting a project also drops every task whose `projectID` is that id. */
    method DeleteProject(id: Option<int>) returns (reply: Reply)
      requires Valid()
      modifies this
      ensures Valid()
      ensures FirstIndex(old(projects), id) == -1 ==> reply == NotFound(ProjectNotFound) && unchanged(this)
      ensures var i := FirstIndex(old(projects), id);
        i != -1 ==>
          && reply == Deleted("Proyecto eliminado")
          && projects == Without(old(projects), "id", id) == old(projects)[..i] + old(projects)[i + 1..]
          && tasks == Without(old(tasks), "projectID", id)
          && (forall k :: 0 <= k < |tasks| ==> !Refers(tasks[k], "projectID", id))
          && people == old(people)
          && projectIdCounter == old(projectIdCounter) && taskIdCounter == old(taskIdCounter)
          && peopleIdCounter == old(peopleIdCounter)
    {
      var initialLength := |projects|;
      WithoutKeepsIds(projects, projectIdCounter, "id", id);
      ghost var i := FirstIndex(projects, id);
      if i == -1 {
        WithoutNothing(projects, "id", id);
      } else {
        WithoutUniqueId(projects, id);
      }
      projects := Filter(projects, "id", id);
      if |projects| < initialLength {
        WithoutKeepsIds(tasks, taskIdCounter, "projectID", id);
        tasks := Filter(tasks, "projectID", id);
        reply := Deleted("Proyecto eliminado");
      } else {
        reply := NotFound(ProjectNotFound);
      }
    }

    /** Deleting a task performs no clean-up elsewhere. */
    method DeleteTask(id: Option<int>) returns (reply: Reply)
      requires Valid()
      modifies this
      ensures Valid()
      ensures FirstIndex(old(tasks), id) == -1 ==> reply == NotFound(TaskNotFound) && unchanged(this)
      ensures var i := FirstIndex(old(tasks), id);
        i != -1 ==>
          && reply == Deleted("Tarea eliminada")
          && tasks == Without(old(tasks), "id", id) == old(tasks)[..i] + old(tasks)[i + 1..]
          && projects == old(projects) && people == old(people)
          && projectIdCounter == old(projectIdCounter) && taskIdCounter == old(taskIdCounter)
          && peopleIdCounter == old(peopleIdCounter)
    {
      var initialLength := |tasks|;
      WithoutKeepsIds(tasks, taskIdCounter, "id", id);
      ghost var i := FirstIndex(tasks, id);
      if i == -1 {
        WithoutNothing(tasks, "id", id);
      } else {
        WithoutUniqueId(tasks, id);
      }
      tasks := Filter(tasks, "id", id);
      if |tasks| < initialLength {
        reply := Deleted("Tarea eliminada");
      } else {
        reply := NotFound(TaskNotFound);
      }
    }

    /** Deleting a person sets `assignedTo` to `null` on every task assigned to that id, in place;
        the tasks themselves stay, in order. */
    method DeletePerson(id: Option<int>) returns (reply: Reply)
      requires Valid()
      modifies this
      ensures Valid()
      ensures FirstIndex(old(people), id) == -1 ==> reply == NotFound(PersonNotFound) && unchanged(this)
      ensures var i := FirstIndex(old(people), id);
        i != -1 ==>
          && reply == Deleted("Persona eliminada")
          && people == Without(old(people), "id", id) == old(people)[..i] + old(people)[i + 1..]
          && tasks == Cleared(old(tasks), "assignedTo", id)
          && projects == old(projects)
          && projectIdCounter == old(projectIdCounter) && taskIdCounter == old(taskIdCounter)
          && peopleIdCounter == old(peopleIdCounter)
    {
      var initialLength := |people|;
      WithoutKeepsIds(people, peopleIdCounter, "id", id);
      ghost var i := FirstIndex(people, id);
      if i == -1 {
        WithoutNothing(people, "id", id);
      } else {
        WithoutUniqueId(people, id);
      }
      people := Filter(people, "id", id);
      if |people| < initialLength {
        ClearedKeepsIds(tasks, taskIdCounter, "assignedTo", id);
        var k := 0;
        while k < |tasks|
          invariant 0 <= k <= |tasks| == |old(tasks)|
          invariant forall j :: 0 <= j < k ==> tasks[j] == ClearIfRefers(old(tasks)[j], "assignedTo", id)
          invariant forall j :: k <= j < |tasks| ==> tasks[j] == old(tasks)[j]
          invariant people == Without(old(people), "id", id) && projects == old(projects)
          invariant projectIdCounter == old(projectIdCounter) && taskIdCounter == old(taskIdCounter)
          invariant peopleIdCounter == old(peopleIdCounter)
        {
          if Refers(tasks[k], "assignedTo", id) {
            tasks := tasks[k := tasks[k]["assignedTo" := Null]];
          }
          k := k + 1;
        }
        assert tasks == Cleared(old(tasks), "assignedTo", id);
        reply := Deleted("Persona eliminada");
      } else {
        reply := NotFound(PersonNotFound);
      }
    }
  }
}
