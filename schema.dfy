/**
 * The `groups` table and the validators derived from it: the create input
 * (every column but `id`; the text columns required, `capacity` and
 * `imageUrl` nullable and optional) and the update input, which is the
 * create input with every field optional.
 */
module Schema {
  import opened Wrappers

  /** A row of the `groups` table; `capacity` and `imageUrl` are nullable. */
  datatype Group = Group(
    id: int,
    name: string,
    description: string,
    leader: string,
    schedule: string,
    location: string,
    capacity: Option<int>,
    imageUrl: Option<string>)

  /** A validated create input: a row without its `id`. */
  datatype InsertGroup = InsertGroup(
    name: string,
    description: string,
    leader: string,
    schedule: string,
    location: string,
    capacity: Option<int>,
    imageUrl: Option<string>)

  /** One field of a partial update: left as it is, or set to a value. */
  datatype Patch<T> = Keep | Set(value: T)

  /** A validated update input: every field of `InsertGroup`, each optional. */
  datatype GroupPatch = GroupPatch(
    name: Patch<string>,
    description: Patch<string>,
    leader: Patch<string>,
    schedule: Patch<string>,
    location: Patch<string>,
    capacity: Patch<Option<int>>,
    imageUrl: Patch<Option<string>>)

  /** The row stored for `input` under the serial id `id`. */
  function WithId(input: InsertGroup, id: int): (g: Group)
    ensures g.id == id && Fields(g) == input
  {
    Group(id, input.name, input.description, input.leader, input.schedule,
          input.location, input.capacity, input.imageUrl)
  }

  /** The columns of a row other than `id`. */
  function Fields(g: Group): InsertGroup
  {
    InsertGroup(g.name, g.description, g.leader, g.schedule, g.location, g.capacity, g.imageUrl)
  }

  function Pick<T>(p: Patch<T>, current: T): T
  {
    match p
    case Keep => current
    case Set(v) => v
  }

  /** The row `g` with the fields present in `p` overwritten. */
  function ApplyPatch(g: Group, p: GroupPatch): (r: Group)
    ensures r.id == g.id
    ensures p.name.Keep? ==> r.name == g.name
    ensures p.name.Set? ==> r.name == p.name.value
    ensures p.description.Keep? ==> r.description == g.description
    ensures p.description.Set? ==> r.description == p.description.value
    ensures p.leader.Keep? ==> r.leader == g.leader
    ensures p.leader.Set? ==> r.leader == p.leader.value
    ensures p.schedule.Keep? ==> r.schedule == g.schedule
    ensures p.schedule.Set? ==> r.schedule == p.schedule.value
    ensures p.location.Keep? ==> r.location == g.location
    ensures p.location.Set? ==> r.location == p.location.value
    ensures p.capacity.Keep? ==> r.capacity == g.capacity
    ensures p.capacity.Set? ==> r.capacity == p.capacity.value
    ensures p.imageUrl.Keep? ==> r.imageUrl == g.imageUrl
    ensures p.imageUrl.Set? ==> r.imageUrl == p.imageUrl.value
  {
    Group(g.id, Pick(p.name, g.name), Pick(p.description, g.description), Pick(p.leader, g.leader),
          Pick(p.schedule, g.schedule), Pick(p.location, g.location),
          Pick(p.capacity, g.capacity), Pick(p.imageUrl, g.imageUrl))
  }

  /** The patch that carries no field. */
  const EmptyPatch: GroupPatch := GroupPatch(Keep, Keep, Keep, Keep, Keep, Keep, Keep)

  /**
   * Overwriting twice is overwriting once, an empty patch changes nothing,
   * and a patch changes a row exactly when some field it sets differs.
   */
  lemma ApplyPatchSound(g: Group, p: GroupPatch)
    ensures ApplyPatch(ApplyPatch(g, p), p) == ApplyPatch(g, p)
    ensures ApplyPatch(g, EmptyPatch) == g
    ensures ApplyPatch(g, p) == g <==>
      && (p.name.Set? ==> p.name.value == g.name)
      && (p.description.Set? ==> p.description.value == g.description)
      && (p.leader.Set? ==> p.leader.value == g.leader)
      && (p.schedule.Set? ==> p.schedule.value == g.schedule)
      && (p.location.Set? ==> p.location.value == g.location)
      && (p.capacity.Set? ==> p.capacity.value == g.capacity)
      && (p.imageUrl.Set? ==> p.imageUrl.value == g.imageUrl)
  {
  }

  /** A JSON value of a request body (numbers are integers in this model). */
  datatype Json =
    | Null
    | Bool(b: bool)
    | Num(n: int)
    | Str(s: string)
    | Arr(items: seq<Json>)
    | Obj(fields: map<string, Json>)

  /** The name zod gives the type of a received value. */
  function TypeName(v: Json): string
  {
    match v
    case Null => "null"
    case Bool(_) => "boolean"
    case Num(_) => "number"
    case Str(_) => "string"
    case Arr(_) => "array"
    case Obj(_) => "object"
  }

  /** One validation issue: the path of the offending field and a message. */
  datatype Issue = Issue(path: seq<string>, message: string)

  function Mismatch(path: seq<string>, expected: string, received: Json): (i: Issue)
    ensures i.path == path && |i.message| > 0 && i.message[0] == 'E'
  {
    Issue(path, "Expected " + expected + ", received " + TypeName(received))
  }

  /** The issue, if any, for a text column that is `notNull`. */
  function TextIssue(fields: map<string, Json>, key: string, partial: bool): (r: seq<Issue>)
  {
    if key !in fields then (if partial then [] else [Issue([key], "Required")])
    else if fields[key].Str? then []
    else [Mismatch([key], "string", fields[key])]
  }

  /** The issue, if any, for the nullable `capacity` column. */
  function CapacityIssue(fields: map<string, Json>): (r: seq<Issue>)
  {
    if "capacity" !in fields || fields["capacity"].Null? || fields["capacity"].Num? then []
    else [Mismatch(["capacity"], "number", fields["capacity"])]
  }

  /** The issue, if any, for the nullable `imageUrl` column. */
  function ImageUrlIssue(fields: map<string, Json>): (r: seq<Issue>)
  {
    if "imageUrl" !in fields || fields["imageUrl"].Null? || fields["imageUrl"].Str? then []
    else [Mismatch(["imageUrl"], "string", fields["imageUrl"])]
  }

  /** Every issue of an object body, in the order of the table's columns. */
  function ObjectIssues(fields: map<string, Json>, partial: bool): (r: seq<Issue>)
    ensures |r| <= |Columns|

  {
    TextIssue(fields, "name", partial)
    + TextIssue(fields, "description", partial)
    + TextIssue(fields, "leader", partial)
    + TextIssue(fields, "schedule", partial)
    + TextIssue(fields, "location", partial)
    + CapacityIssue(fields)
    + ImageUrlIssue(fields)
  }

  /** Every issue names one schema column, and a partial input reports no `Required`. */
  predicate WellPlaced(issues: seq<Issue>, partial: bool)
  {
    forall issue :: issue in issues ==>
      && |issue.path| == 1 && issue.path[0] in SchemaKeys
      && (partial ==> issue.message != "Required")
  }

  lemma TextIssuePlaced(fields: map<string, Json>, key: string, partial: bool)
    requires key in SchemaKeys
    ensures WellPlaced(TextIssue(fields, key, partial), partial)
  {
    if key in fields && !fields[key].Str? {
      assert "Required"[0] == 'R';
    }
  }

  /**
   * Every issue of an object body names one schema column as its path, and
   * the partial input reports only type mismatches, never `Required`.
   */
  lemma ObjectIssuesShape(fields: map<string, Json>, partial: bool)
    ensures WellPlaced(ObjectIssues(fields, partial), partial)
  {
    TextIssuePlaced(fields, "name", partial);
    TextIssuePlaced(fields, "description", partial);
    TextIssuePlaced(fields, "leader", partial);
    TextIssuePlaced(fields, "schedule", partial);
    TextIssuePlaced(fields, "location", partial);
    assert "Required"[0] == 'R';
    assert WellPlaced(CapacityIssue(fields), partial);
    assert WellPlaced(ImageUrlIssue(fields), partial);
  }

  /** The keys the validators read; every other key of a body is stripped. */
  const SchemaKeys: set<string> := {"name", "description", "leader", "schedule", "location", "capacity", "imageUrl"}

  /** The five text columns the create input requires. */
  const RequiredKeys: set<string> := {"name", "description", "leader", "schedule", "location"}

  /** A present, well-typed text field. */
  predicate TextOk(fields: map<string, Json>, key: string)
  {
    key in fields && fields[key].Str?
  }

  /** A nullable field that is absent, null or of the expected kind. */
  predicate NullableOk(fields: map<string, Json>, key: string, isNumber: bool)
  {
    key !in fields || fields[key].Null? || (if isNumber then fields[key].Num? else fields[key].Str?)
  }

  /** Lemma-level view: the object issues are empty exactly when every field is acceptable. */
  lemma ObjectIssuesEmpty(fields: map<string, Json>, partial: bool)
    ensures ObjectIssues(fields, partial) == [] <==>
      (forall k :: k in RequiredKeys ==> (if partial then k !in fields || fields[k].Str? else TextOk(fields, k)))
      && NullableOk(fields, "capacity", true) && NullableOk(fields, "imageUrl", false)
  {
  }

  function Text(fields: map<string, Json>, key: string): string
  {
    if key in fields && fields[key].Str? then fields[key].s else ""
  }

  function NullableInt(fields: map<string, Json>, key: string): Option<int>
  {
    if key in fields && fields[key].Num? then Some(fields[key].n) else None
  }

  function NullableText(fields: map<string, Json>, key: string): Option<string>
  {
    if key in fields && fields[key].Str? then Some(fields[key].s) else None
  }

  function TextPatch(fields: map<string, Json>, key: string): Patch<string>
  {
    if key in fields && fields[key].Str? then Set(fields[key].s) else Keep
  }

  function NullablePatch<T>(fields: map<string, Json>, key: string, v: Option<T>): Patch<Option<T>>
  {
    if key in fields then Set(v) else Keep
  }

  function NotAnObject(body: Json): seq<Issue>
  {
    [Mismatch([], "object", body)]
  }

  /** `insertGroupSchema.parse(body)`: the create input, or every issue in column order. */
  function ValidateCreate(body: Json): (r: Result<InsertGroup, seq<Issue>>)
    ensures r.Success? <==>
      && body.Obj?
      && (forall k :: k in RequiredKeys ==> TextOk(body.fields, k))
      && NullableOk(body.fields, "capacity", true) && NullableOk(body.fields, "imageUrl", false)
    ensures r.Failure? ==> |r.error| >= 1
    ensures r.Success? ==>
      && Some(Str(r.value.name)) == Lookup(body, "name")
      && Some(Str(r.value.description)) == Lookup(body, "description")
      && Some(Str(r.value.leader)) == Lookup(body, "leader")
      && Some(Str(r.value.schedule)) == Lookup(body, "schedule")
      && Some(Str(r.value.location)) == Lookup(body, "location")
      && (r.value.capacity.None? <==> Lookup(body, "capacity") in {None, Some(Null)})
      && (r.value.capacity.Some? ==> Lookup(body, "capacity") == Some(Num(r.value.capacity.value)))
      && (r.value.imageUrl.None? <==> Lookup(body, "imageUrl") in {None, Some(Null)})
      && (r.value.imageUrl.Some? ==> Lookup(body, "imageUrl") == Some(Str(r.value.imageUrl.value)))
  {
    match body
    case Obj(f) =>
      var issues := ObjectIssues(f, false);
      if issues != [] then Failure(issues)
      else Success(InsertGroup(Text(f, "name"), Text(f, "description"), Text(f, "leader"),
                               Text(f, "schedule"), Text(f, "location"),
                               NullableInt(f, "capacity"), NullableText(f, "imageUrl")))
    case _ => Failure(NotAnObject(body))
  }

  /** `insertGroupSchema.partial().parse(body)`: the update input, or every issue in column order. */
  function ValidateUpdate(body: Json): (r: Result<GroupPatch, seq<Issue>>)
    ensures r.Success? <==>
      && body.Obj?
      && (forall k :: k in RequiredKeys ==> k !in body.fields || body.fields[k].Str?)
      && NullableOk(body.fields, "capacity", true) && NullableOk(body.fields, "imageUrl", false)
    ensures r.Failure? ==> |r.error| >= 1
    ensures r.Success? ==>
      && (r.value.name.Keep? <==> Lookup(body, "name").None?)
      && (r.value.name.Set? ==> Lookup(body, "name") == Some(Str(r.value.name.value)))
      && (r.value.description.Keep? <==> Lookup(body, "description").None?)
      && (r.value.description.Set? ==> Lookup(body, "description") == Some(Str(r.value.description.value)))
      && (r.value.leader.Keep? <==> Lookup(body, "leader").None?)
      && (r.value.leader.Set? ==> Lookup(body, "leader") == Some(Str(r.value.leader.value)))
      && (r.value.schedule.Keep? <==> Lookup(body, "schedule").None?)
      && (r.value.schedule.Set? ==> Lookup(body, "schedule") == Some(Str(r.value.schedule.value)))
      && (r.value.location.Keep? <==> Lookup(body, "location").None?)
      && (r.value.location.Set? ==> Lookup(body, "location") == Some(Str(r.value.location.value)))
    ensures r.Success? ==>
      && (r.value.capacity.Keep? <==> Lookup(body, "capacity").None?)
      && (r.value.capacity == Set(None) <==> Lookup(body, "capacity") == Some(Null))
      && (r.value.capacity.Set? && r.value.capacity.value.Some? ==>
            Lookup(body, "capacity") == Some(Num(r.value.capacity.value.value)))
      && (r.value.imageUrl.Keep? <==> Lookup(body, "imageUrl").None?)
      && (r.value.imageUrl == Set(None) <==> Lookup(body, "imageUrl") == Some(Null))
      && (r.value.imageUrl.Set? && r.value.imageUrl.value.Some? ==>
            Lookup(body, "imageUrl") == Some(Str(r.value.imageUrl.value.value)))
  {
    match body
    case Obj(f) =>
      var issues := ObjectIssues(f, true);
      if issues != [] then Failure(issues)
      else Success(GroupPatch(TextPatch(f, "name"), TextPatch(f, "description"), TextPatch(f, "leader"),
                              TextPatch(f, "schedule"), TextPatch(f, "location"),
                              NullablePatch(f, "capacity", NullableInt(f, "capacity")),
                              NullablePatch(f, "imageUrl", NullableText(f, "imageUrl"))))
    case _ => Failure(NotAnObject(body))
  }

  /** The table's columns other than `id`, in the order the validators check them. */
  const Columns: seq<string> := ["name", "description", "leader", "schedule", "location", "capacity", "imageUrl"]

  /** The column `Columns[i]` of an object body passes its check. */
  predicate ColumnOk(fields: map<string, Json>, i: nat, partial: bool)
    requires i < |Columns|
  {
    if i == 5 then NullableOk(fields, "capacity", true)
    else if i == 6 then NullableOk(fields, "imageUrl", false)
    else if partial then Columns[i] !in fields || fields[Columns[i]].Str?
    else TextOk(fields, Columns[i])
  }

  /** The index of the first column from `i` on that fails its check, or `|Columns|` when none does. */
  function FirstBadColumn(fields: map<string, Json>, partial: bool, i: nat): (r: nat)
    requires i <= |Columns|
    ensures i <= r <= |Columns|
    ensures r < |Columns| ==> !ColumnOk(fields, r, partial)
    ensures forall j :: i <= j < r ==> ColumnOk(fields, j, partial)
    decreases |Columns| - i
  {
    if i == |Columns| then i
    else if !ColumnOk(fields, i, partial) then i
    else FirstBadColumn(fields, partial, i + 1)
  }

  /** The issue, if any, of the column `Columns[i]`, with its path and message. */
  function ColumnIssue(fields: map<string, Json>, i: nat, partial: bool): (r: seq<Issue>)
    requires i < |Columns|
    ensures r == [] <==> ColumnOk(fields, i, partial)
    ensures |r| <= 1
    ensures r != [] ==> r[0].path == [Columns[i]] && (r[0].message == "Required" <==> !partial && Columns[i] !in fields)
  {
    assert "Required"[0] == 'R';
    if i == 5 then CapacityIssue(fields)
    else if i == 6 then ImageUrlIssue(fields)
    else TextIssue(fields, Columns[i], partial)
  }

  /** The issues of the columns from `Columns[i]` on, in schema order. */
  function IssuesFrom(fields: map<string, Json>, partial: bool, i: nat): seq<Issue>
    requires i <= |Columns|
    decreases |Columns| - i
  {
    if i == |Columns| then [] else ColumnIssue(fields, i, partial) + IssuesFrom(fields, partial, i + 1)
  }

  /** The last three columns' issues, unrolled. */
  lemma IssuesFromLocation(fields: map<string, Json>, partial: bool)
    ensures IssuesFrom(fields, partial, 4)
      == TextIssue(fields, "location", partial) + (CapacityIssue(fields) + ImageUrlIssue(fields))
  {
    assert IssuesFrom(fields, partial, 7) == [];
    assert IssuesFrom(fields, partial, 6) == ImageUrlIssue(fields) + [];
  }

  /** The first four columns' issues, unrolled. */
  lemma IssuesFromName(fields: map<string, Json>, partial: bool)
    ensures IssuesFrom(fields, partial, 0)
      == TextIssue(fields, "name", partial) + (TextIssue(fields, "description", partial)
        + (TextIssue(fields, "leader", partial) + (TextIssue(fields, "schedule", partial) + IssuesFrom(fields, partial, 4))))
  {
    assert IssuesFrom(fields, partial, 3) == TextIssue(fields, "schedule", partial) + IssuesFrom(fields, partial, 4);
  }

  lemma AppendAssoc<T>(a: seq<T>, b: seq<T>, c: seq<T>)
    ensures a + b + c == a + (b + c)
  {
  }

  /** The object issues are the column issues, column by column. */
  lemma ObjectIssuesByColumn(fields: map<string, Json>, partial: bool)
    ensures ObjectIssues(fields, partial) == IssuesFrom(fields, partial, 0)
  {
    var n, d, l := TextIssue(fields, "name", partial), TextIssue(fields, "description", partial), TextIssue(fields, "leader", partial);
    var sc, lo := TextIssue(fields, "schedule", partial), TextIssue(fields, "location", partial);
    var c, im := CapacityIssue(fields), ImageUrlIssue(fields);
    IssuesFromLocation(fields, partial);
    IssuesFromName(fields, partial);
    AppendAssoc(n + d + l + sc + lo, c, im);
    AppendAssoc(n + d + l + sc, lo, c + im);
    AppendAssoc(n + d + l, sc, lo + (c + im));
    AppendAssoc(n + d, l, sc + (lo + (c + im)));
    AppendAssoc(n, d, l + (sc + (lo + (c + im))));
  }

  /** From column `i` on, the first issue is that of the first failing column. */
  lemma {:induction false} FirstIssueFrom(fields: map<string, Json>, partial: bool, i: nat)
    requires i <= |Columns|
    ensures var k, r := FirstBadColumn(fields, partial, i), IssuesFrom(fields, partial, i);
      && (r == [] <==> k == |Columns|)
      && (k < |Columns| ==> r[0] == ColumnIssue(fields, k, partial)[0])
    decreases |Columns| - i
  {
    if i < |Columns| {
      FirstIssueFrom(fields, partial, i + 1);
      var c := ColumnIssue(fields, i, partial);
      if c == [] {
        assert IssuesFrom(fields, partial, i) == IssuesFrom(fields, partial, i + 1);
      } else {
        assert IssuesFrom(fields, partial, i)[0] == c[0];
      }
    }
  }

  /**
   * An object body has issues exactly when some column fails its check; the
   * first issue names the first such column in schema order, with `Required`
   * exactly when that is a missing text column of the create input.
   */
  lemma FirstObjectIssue(f: map<string, Json>, partial: bool)
    ensures var k, r := FirstBadColumn(f, partial, 0), ObjectIssues(f, partial);
      && (r == [] <==> k == |Columns|)
      && (k < |Columns| ==> r[0].path == [Columns[k]] && (r[0].message == "Required" <==> !partial && Columns[k] !in f))
  {
    ObjectIssuesByColumn(f, partial);
    FirstIssueFrom(f, partial, 0);
  }

  /**
   * The issue a failed validation reports first, which becomes the `field` of
   * the 400 answer: for a body that is no object it has the empty path; for an
   * object it names the first column, in schema order, that fails its check,
   * with `Required` exactly when that column is a missing text column of the
   * create input.
   */
  lemma FirstIssueIsFirstBadColumn(body: Json, partial: bool, issues: seq<Issue>)
    requires if partial then ValidateUpdate(body) == Failure(issues) else ValidateCreate(body) == Failure(issues)
    ensures |issues| >= 1
    ensures !body.Obj? ==> issues[0].path == []
    ensures body.Obj? ==>
      var k := FirstBadColumn(body.fields, partial, 0);
      && k < |Columns|
      && issues[0].path == [Columns[k]]
      && (issues[0].message == "Required" <==> !partial && Columns[k] !in body.fields)
  {
    if body.Obj? {
      FirstObjectIssue(body.fields, partial);
    }
  }

  /** The value of `key` in an object body, `None` when it is absent (or the body is no object). */
  function Lookup(body: Json, key: string): Option<Json>
  {
    if body.Obj? && key in body.fields then Some(body.fields[key]) else None
  }

  /** The update input is the create input with every field optional: both directions. */
  lemma CreateIsTotalUpdate(body: Json)
    ensures ValidateCreate(body).Success? <==>
      ValidateUpdate(body).Success? && forall k :: k in RequiredKeys ==> Lookup(body, k).Some?
  {
  }

  /** A body the create validator accepts gives an update that sets every field it carries. */
  lemma CreateInputAsUpdate(body: Json)
    requires ValidateCreate(body).Success?
    ensures ValidateUpdate(body).Success?
    ensures var i, p := ValidateCreate(body).value, ValidateUpdate(body).value;
      && p.name == Set(i.name) && p.description == Set(i.description) && p.leader == Set(i.leader)
      && p.schedule == Set(i.schedule) && p.location == Set(i.location)
      && p.capacity == (if Lookup(body, "capacity").Some? then Set(i.capacity) else Keep)
      && p.imageUrl == (if Lookup(body, "imageUrl").Some? then Set(i.imageUrl) else Keep)
  {
  }

  /** When every required field is present, both validators report the same issues. */
  lemma SameIssuesWhenComplete(body: Json)
    requires body.Obj? && forall k :: k in RequiredKeys ==> k in body.fields
    ensures ValidateCreate(body).Failure? <==> ValidateUpdate(body).Failure?
    ensures ValidateCreate(body).Failure? ==> ValidateCreate(body).error == ValidateUpdate(body).error
  {
  }

  /** Two bodies that agree on one key read that key alike. */
  lemma AgreeAt(f: map<string, Json>, g: map<string, Json>, k: string)
    requires (k in f <==> k in g) && (k in f ==> f[k] == g[k])
    ensures TextIssue(f, k, false) == TextIssue(g, k, false)
    ensures TextIssue(f, k, true) == TextIssue(g, k, true)
    ensures Text(f, k) == Text(g, k) && TextPatch(f, k) == TextPatch(g, k)
    ensures NullableInt(f, k) == NullableInt(g, k) && NullableText(f, k) == NullableText(g, k)
    ensures k == "capacity" ==> CapacityIssue(f) == CapacityIssue(g)
    ensures k == "imageUrl" ==> ImageUrlIssue(f) == ImageUrlIssue(g)
  {
  }

  /** Two bodies that agree on the schema's keys validate alike. */
  lemma AgreeOnSchemaKeys(f: map<string, Json>, g: map<string, Json>)
    requires forall k :: k in SchemaKeys ==> (k in f <==> k in g) && (k in f ==> f[k] == g[k])
    ensures ValidateCreate(Obj(f)) == ValidateCreate(Obj(g))
    ensures ValidateUpdate(Obj(f)) == ValidateUpdate(Obj(g))
  {
    AgreeAt(f, g, "name");
    AgreeAt(f, g, "description");
    AgreeAt(f, g, "leader");
    AgreeAt(f, g, "schedule");
    AgreeAt(f, g, "location");
    AgreeAt(f, g, "capacity");
    AgreeAt(f, g, "imageUrl");
    assert ObjectIssues(f, false) == ObjectIssues(g, false);
    assert ObjectIssues(f, true) == ObjectIssues(g, true);
    assert ("capacity" in f) == ("capacity" in g) && ("imageUrl" in f) == ("imageUrl" in g);
  }

  /** Keys outside the schema, `id` among them, are stripped: a client cannot choose them. */
  lemma UnknownKeysIgnored(f: map<string, Json>, key: string, v: Json)
    requires key !in SchemaKeys
    ensures ValidateCreate(Obj(f[key := v])) == ValidateCreate(Obj(f))
    ensures ValidateUpdate(Obj(f[key := v])) == ValidateUpdate(Obj(f))
  {
    AgreeOnSchemaKeys(f[key := v], f);
  }

  /** No minimum length and no lower bound on `capacity` is declared: empty text and capacity 0 pass. */
  lemma NoLengthOrCapacityBound(capacity: int)
    ensures var body := Obj(map["name" := Str(""), "description" := Str(""), "leader" := Str(""),
                                "schedule" := Str(""), "location" := Str(""), "capacity" := Num(capacity)]);
      ValidateCreate(body) == Success(InsertGroup("", "", "", "", "", Some(capacity), None))
  {
  }

  /** An empty object fails the create input on `name` first, but is a valid (empty) update. */
  lemma EmptyObjectBody()
    ensures ValidateCreate(Obj(map[])).Failure?
    ensures ValidateCreate(Obj(map[])).error[0] == Issue(["name"], "Required")
    ensures ValidateUpdate(Obj(map[])) == Success(EmptyPatch)
  {
  }
}
