/**
  Request sequences against a freshly started service, checked against the handlers'
  contracts alone.
 */
module Scenarios {
  import opened Values
  import opened Records
  import opened Server

  /** POST /projects {"name":"X"} creates project 2, which GET then finds. */
  method CreateThenGetScenario()
  {
    var service := new Service();
    var created := service.CreateProject(Some(map["name" := Str("X")]));
    assert created == Created("Proyecto creado", map["name" := Str("X"), "id" := Num(2)]);
    var fetched := service.GetProject(Some(2));
    assert fetched == Found(created.record);
  }

  /** Creates missing a required field, or with no body, are 400. */
  method RejectedCreateScenario()
  {
    var service := new Service();
    var rejected := service.CreateTask(Some(map["title" := Str("T")]));
    assert rejected == BadRequest(TaskFieldsRequired) && rejected.Status() == 400;
    rejected := service.CreateTask(Some(map["title" := Str("T"), "projectID" := Num(0)]));
    assert rejected.Status() == 400;
    rejected := service.CreateProject(None);
    assert rejected == BadRequest(ProjectNameRequired);
    assert service.projects == [SeedProject] && service.projectIdCounter == 2;
  }

  /** GET /projects/999 and GET /projects/NaN are 404, and no request by id reaches the
      seeded task, which has no id. */
  method NotFoundScenario()
  {
    var service := new Service();
    var missing := service.GetProject(Some(999));
    assert missing == NotFound(ProjectNotFound);
    missing := service.GetProject(None);
    assert missing.Status() == 404;
    missing := service.GetTask(Some(1));
    assert missing == NotFound(TaskNotFound);
  }

  /** DELETE /people/1 keeps the seeded task and clears its assignedTo. */
  method DeletePersonScenario()
  {
    var service := new Service();
    var deleted := service.DeletePerson(Some(1));
    assert deleted == Deleted("Persona eliminada");
    assert |service.tasks| == 1 && service.tasks[0]["assignedTo"] == Null;
  }

  /** DELETE /projects/1 drops the seeded task with it; a second DELETE is 404. */
  method DeleteProjectTwiceScenario()
  {
    var service := new Service();
    var deleted := service.DeleteProject(Some(1));
    assert deleted.Status() == 200 && service.tasks == [];
    deleted := service.DeleteProject(Some(1));
    assert deleted == NotFound(ProjectNotFound);
  }
}
