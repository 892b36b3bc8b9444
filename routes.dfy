/**
 * The five group handlers of `registerRoutes` and `seedDatabase`. Each
 * handler is specified by a function from the table before the request to
 * the table after it and the outcome; the methods run against the store
 * object and are proved to match.
 */
module Routes {
  import opened Wrappers
  import opened Schema
  import opened Api
  import opened Storage

  /** The JSON body a handler sends. */
  datatype Body =
    | GroupList(groups: seq<Group>)
    | OneGroup(group: Group)
    | NotFoundBody(notFound: NotFoundError)
    | InvalidBody(invalid: ValidationError)
    | NoBody

  datatype Response = Response(status: int, body: Body)

  /** An error thrown inside a handler's `try` block. */
  datatype Thrown = ZodError(issues: seq<Issue>) | OtherError(description: string)

  /** How a handler ends: it responds, or it throws an error on to the framework. */
  datatype Outcome = Respond(response: Response) | Rethrow(error: Thrown)

  /** A request to one of the five endpoints; ids are already numbers. */
  datatype Request =
    | ListGroups
    | GetGroupById(id: int)
    | CreateGroupWith(body: Json)
    | UpdateGroupWith(id: int, body: Json)
    | DeleteGroupById(id: int)

  function EndpointOf(req: Request): Endpoint
  {
    match req
    case ListGroups => List
    case GetGroupById(_) => Get
    case CreateGroupWith(_) => Create
    case UpdateGroupWith(_, _) => Update
    case DeleteGroupById(_) => Delete
  }

  /** `path.join(sep)`. */
  function JoinPath(path: seq<string>, sep: string): (r: string)
    ensures |path| == 0 ==> r == ""
    ensures |path| == 1 ==> r == path[0]
  {
    if |path| == 0 then ""
    else if |path| == 1 then path[0]
    else path[0] + sep + JoinPath(path[1..], sep)
  }

  const GroupNotFound: Response := Response(404, NotFoundBody(NotFoundError("Group not found")))

  /**
   * The `catch` of the POST and PUT handlers: a zod error becomes 400 with
   * its first issue's message and path; anything else is thrown on. A zod
   * error without issues would make `err.errors[0].message` throw.
   */
  function Catch(err: Thrown): (o: Outcome)
    ensures o.Respond? <==> err.ZodError? && |err.issues| > 0
    ensures o.Respond? ==> IsValidationResponse(o, err.issues) && o.response.status == 400
    ensures err.OtherError? ==> o == Rethrow(err)
  {
    match err
    case ZodError(issues) =>
      if |issues| == 0 then Rethrow(OtherError("TypeError: err.errors[0] is undefined"))
      else Respond(Response(400, InvalidBody(ValidationError(issues[0].message, Some(JoinPath(issues[0].path, "."))))))
    case OtherError(_) => Rethrow(err)
  }

  /** The 400 response the handlers send for a failed validation. */
  predicate IsValidationResponse(o: Outcome, issues: seq<Issue>)
  {
    && |issues| > 0
    && o == Respond(Response(400, InvalidBody(ValidationError(issues[0].message, Some(JoinPath(issues[0].path, "."))))))
  }

  /** GET /api/groups. */
  function ServeList(t: Table): (r: Response)
    ensures r.status == 200 && r.body.GroupList? && r.body.groups == t.rows
  {
    Response(200, GroupList(t.rows))
  }

  /** GET /api/groups/:id. */
  function ServeGet(t: Table, id: int): (r: Response)
    ensures r == GroupNotFound <==> forall g :: g in t.rows ==> g.id != id
    ensures r != GroupNotFound ==> r.status == 200 && r.body.OneGroup? && r.body.group in t.rows && r.body.group.id == id
  {
    match Find(t.rows, id)
    case None => GroupNotFound
    case Some(g) => Response(200, OneGroup(g))
  }

  /** POST /api/groups. */
  function ServeCreate(t: Table, body: Json): (r: (Table, Outcome))
    ensures r.1.Respond? && r.1.response.status in {201, 400}
    ensures r.1.response.status == 400 <==> ValidateCreate(body).Failure?
    ensures ValidateCreate(body).Failure? ==> r.0 == t
  {
    match ValidateCreate(body)
    case Failure(issues) => (t, Catch(ZodError(issues)))
    case Success(input) =>
      var (t', g) := InsertRow(t, input);
      (t', Respond(Response(201, OneGroup(g))))
  }

  /** PUT /api/groups/:id: the body is validated before the store is touched. */
  function ServeUpdate(t: Table, id: int, body: Json): (r: (Table, Outcome))
    ensures r.1.Respond? && r.1.response.status in {200, 400, 404}
    ensures r.1.response.status == 400 <==> ValidateUpdate(body).Failure?
    ensures r.1.response.status == 404 <==>
      ValidateUpdate(body).Success? && forall g :: g in t.rows ==> g.id != id
    ensures ValidateUpdate(body).Failure? ==> r.0 == t
    ensures r.0.nextId == t.nextId && |r.0.rows| == |t.rows|
  {
    match ValidateUpdate(body)
    case Failure(issues) => (t, Catch(ZodError(issues)))
    case Success(p) =>
      var (t', updated) := UpdateRow(t, id, p);
      match updated
      case None => (t', Respond(GroupNotFound))
      case Some(g) => (t', Respond(Response(200, OneGroup(g))))
  }

  /** DELETE /api/groups/:id. */
  function ServeDelete(t: Table, id: int): (r: (Table, Response))
    ensures r.1 == Response(204, NoBody)
    ensures forall g :: g in r.0.rows <==> g in t.rows && g.id != id
  {
    (DeleteRow(t, id), Response(204, NoBody))
  }

  /** Any request: the table afterwards and the outcome; reads leave the table alone. */
  function Serve(t: Table, req: Request): (r: (Table, Outcome))
    ensures req.ListGroups? || req.GetGroupById? ==> r.0 == t
  {
    match req
    case ListGroups => (t, Respond(ServeList(t)))
    case GetGroupById(id) => (t, Respond(ServeGet(t, id)))
    case CreateGroupWith(body) => ServeCreate(t, body)
    case UpdateGroupWith(id, body) => ServeUpdate(t, id, body)
    case DeleteGroupById(id) => (ServeDelete(t, id).0, Respond(ServeDelete(t, id).1))
  }

  /** GET by id answers 404 `Group not found` exactly when no row has the id, else 200 with that row. */
  lemma GetSound(t: Table, id: int)
    requires TableValid(t)
    ensures (forall g :: g in t.rows ==> g.id != id) <==> ServeGet(t, id) == GroupNotFound
    ensures forall g :: g in t.rows && g.id == id ==> ServeGet(t, id) == Response(200, OneGroup(g))
  {
  }

  /**
   * POST with a valid body answers 201 with the new row: the validated input
   * plus a fresh id and nothing else, and a GET of that id returns it. An
   * invalid body answers 400 naming the first issue and stores nothing.
   */
  lemma CreateSound(t: Table, body: Json)
    requires TableValid(t)
    ensures var (t', o) := ServeCreate(t, body);
      && TableValid(t')
      && (ValidateCreate(body).Failure? ==>
            t' == t && IsValidationResponse(o, ValidateCreate(body).error))
      && (ValidateCreate(body).Success? ==>
            && o.Respond? && o.response.status == 201 && o.response.body.OneGroup?
            && var g := o.response.body.group;
            && Fields(g) == ValidateCreate(body).value
            && (forall h :: h in t.rows ==> h.id != g.id)
            && t'.rows == t.rows + [g]
            && ServeGet(t', g.id) == Response(200, OneGroup(g)))
  {
  }

  /**
   * PUT validates first: an invalid body answers 400 and leaves the table as
   * it was, whether or not the id exists. A valid body on an absent id
   * answers 404 and changes nothing; on a present id it answers 200 with the
   * patched row, which a GET then returns.
   */
  lemma UpdateSound(t: Table, id: int, body: Json)
    requires TableValid(t)
    ensures var (t', o) := ServeUpdate(t, id, body);
      && TableValid(t')
      && (ValidateUpdate(body).Failure? ==>
            t' == t && IsValidationResponse(o, ValidateUpdate(body).error))
      && (ValidateUpdate(body).Success? && (forall g :: g in t.rows ==> g.id != id) ==>
            t' == t && o == Respond(GroupNotFound))
      && (ValidateUpdate(body).Success? ==> forall g :: g in t.rows && g.id == id ==>
            && o == Respond(Response(200, OneGroup(ApplyPatch(g, ValidateUpdate(body).value))))
            && ServeGet(t', id) == o.response)
  {
    if ValidateUpdate(body).Success? {
      var p := ValidateUpdate(body).value;
      UpdateRowSound(t, id, p);
      forall g | g in t.rows && g.id == id
        ensures ServeUpdate(t, id, body).1 == Respond(Response(200, OneGroup(ApplyPatch(g, p))))
      {
        FindUnique(t.rows, g);
      }
    }
  }

  /** The same PUT twice leaves the same table, and answers the same, as once. */
  lemma UpdateIdempotent(t: Table, id: int, body: Json)
    requires TableValid(t)
    ensures var (t1, o1) := ServeUpdate(t, id, body);
      ServeUpdate(t1, id, body) == (t1, o1)
  {
    if ValidateUpdate(body).Success? {
      var p := ValidateUpdate(body).value;
      UpdateRowSound(t, id, p);
      UpdateRowIdempotent(t, id, p);
      var t1 := UpdateRow(t, id, p).0;
      if Find(t.rows, id).Some? {
        var g := Find(t.rows, id).value;
        ApplyPatchSound(g, p);
        UpdateRowSound(t1, id, p);
      }
    }
  }

  /**
   * DELETE always answers 204 with no body, whether or not the id existed;
   * afterwards no row has the id, every other row remains, and a second
   * DELETE changes nothing.
   */
  lemma DeleteSound(t: Table, id: int)
    requires TableValid(t)
    ensures var (t', r) := ServeDelete(t, id);
      && r == Response(204, NoBody)
      && TableValid(t')
      && ServeGet(t', id) == GroupNotFound
      && (forall g :: g in t'.rows <==> g in t.rows && g.id != id)
      && ServeDelete(t', id).0 == t'
  {
    DeleteRowSound(t, id);
    DeleteRowIdempotent(t, id);
  }

  /**
   * Every response a handler sends has a status its endpoint declares; the
   * 404 declared for DELETE is never sent. Only POST and PUT can throw, and
   * neither does in this model, where the store never fails.
   */
  lemma StatusesDeclared(t: Table, req: Request)
    ensures Serve(t, req).1.Respond?
    ensures Serve(t, req).1.response.status in DeclaredStatuses(EndpointOf(req))
    ensures req.DeleteGroupById? ==> Serve(t, req).1.response.status == 204
  {
  }

  /** Every request keeps the table valid. */
  lemma ServeKeepsValid(t: Table, req: Request)
    requires TableValid(t)
    ensures TableValid(Serve(t, req).0)
  {
    match req
    case ListGroups =>
    case GetGroupById(_) =>
    case CreateGroupWith(body) => CreateSound(t, body);
    case UpdateGroupWith(id, body) => UpdateSound(t, id, body);
    case DeleteGroupById(id) => DeleteSound(t, id);
  }

  /** POST of an empty object answers 400 naming `name` as the missing field, and stores nothing. */
  lemma CreateEmptyObject(t: Table)
    ensures ServeCreate(t, Obj(map[])) ==
      (t, Respond(Response(400, InvalidBody(ValidationError("Required", Some("name"))))))
  {
  }

  /** A PUT body that is no object answers 400, not 404, even on an id no row has. */
  lemma UpdateNonObjectOnMissingId(id: int)
    ensures ServeUpdate(EmptyTable, id, Null) ==
      (EmptyTable, Respond(Response(400, InvalidBody(ValidationError("Expected object, received null", Some(""))))))
  {
    assert "Expected " + "object" + ", received " + "null" == "Expected object, received null";
    assert ValidateUpdate(Null) == Failure([Issue([], "Expected object, received null")]);
  }

  /** The three groups `seedDatabase` inserts, in order. */
  const SeedGroups: seq<InsertGroup> := [
    InsertGroup("Tuesday Night Torah",
                "A weekly dive into the Parsha with lively discussion and coffee.",
                "Rabbi Cohen", "Tuesdays at 7:00 PM", "Library (Room 3B)", Some(15), None),
    InsertGroup("Knitting for a Cause",
                "We knit hats and scarves for the local shelter. Beginners welcome!",
                "Sarah Levy", "Sundays at 10:00 AM", "Social Hall", Some(20), None),
    InsertGroup("Young Professionals Dinner",
                "Monthly Shabbat dinners for members ages 22-35.",
                "David Stein", "First Friday of the month", "Rotates among members' homes", Some(12), None)
  ]

  /** `seedDatabase` as a function: the three groups are inserted, one by one, only into an empty table. */
  function Seeded(t: Table): (r: Table)
    ensures |t.rows| > 0 ==> r == t
    ensures |t.rows| == 0 ==> |r.rows| == 3 && r.nextId == t.nextId + 3
  {
    if |t.rows| == 0 then
      var t1 := InsertRow(t, SeedGroups[0]).0;
      var t2 := InsertRow(t1, SeedGroups[1]).0;
      InsertRow(t2, SeedGroups[2]).0
    else t
  }

  /**
   * Seeding an empty table inserts exactly the three seed groups, in order,
   * with consecutive fresh ids, and keeps the table valid; seeding twice is
   * seeding once.
   */
  lemma SeedSound(t: Table)
    requires TableValid(t)
    ensures TableValid(Seeded(t))
    ensures |t.rows| == 0 ==>
      forall i :: 0 <= i < 3 ==> Seeded(t).rows[i] == WithId(SeedGroups[i], t.nextId + i)
    ensures Seeded(Seeded(t)) == Seeded(t)
  {
  }

  /** The handler of GET /api/groups. */
  method HandleList(store: GroupStore) returns (res: Response)
    ensures res == Response(200, GroupList(store.rows))
  {
    var groups := store.GetGroups();
    res := Response(200, GroupList(groups));
  }

  /** The handler of GET /api/groups/:id. */
  method HandleGet(store: GroupStore, id: int) returns (res: Response)
    requires store.Valid()
    ensures res == ServeGet(store.Value(), id)
  {
    var group := store.GetGroup(id);
    if group.None? {
      return GroupNotFound;
    }
    res := Response(200, OneGroup(group.value));
  }

  /** The handler of POST /api/groups. */
  method HandleCreate(store: GroupStore, body: Json) returns (out: Outcome)
    requires store.Valid()
    modifies store
    ensures store.Valid()
    ensures (store.Value(), out) == ServeCreate(old(store.Value()), body)
  {
    match ValidateCreate(body)
    case Failure(issues) =>
      out := Catch(ZodError(issues));
    case Success(input) =>
      var group := store.CreateGroup(input);
      out := Respond(Response(201, OneGroup(group)));
  }

  /** The handler of PUT /api/groups/:id. */
  method HandleUpdate(store: GroupStore, id: int, body: Json) returns (out: Outcome)
    requires store.Valid()
    modifies store
    ensures store.Valid()
    ensures (store.Value(), out) == ServeUpdate(old(store.Value()), id, body)
  {
    match ValidateUpdate(body)
    case Failure(issues) =>
      out := Catch(ZodError(issues));
    case Success(input) =>
      var group := store.UpdateGroup(id, input);
      if group.None? {
        return Respond(GroupNotFound);
      }
      out := Respond(Response(200, OneGroup(group.value)));
  }

  /** The handler of DELETE /api/groups/:id. */
  method HandleDelete(store: GroupStore, id: int) returns (res: Response)
    requires store.Valid()
    modifies store
    ensures store.Valid()
    ensures (store.Value(), res) == ServeDelete(old(store.Value()), id)
  {
    store.DeleteGroup(id);
    res := Response(204, NoBody);
  }

  /** `seedDatabase`: the three groups are created one by one, and only into an empty table. */
  method SeedDatabase(store: GroupStore)
    requires store.Valid()
    modifies store
    ensures store.Valid()
    ensures store.Value() == Seeded(old(store.Value()))
  {
    var existing := store.GetGroups();
    if |existing| == 0 {
      var g0 := store.CreateGroup(SeedGroups[0]);
      var g1 := store.CreateGroup(SeedGroups[1]);
      var g2 := store.CreateGroup(SeedGroups[2]);
    }
  }
}
