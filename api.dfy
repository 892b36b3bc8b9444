/**
 * The shared API contract: the error bodies, the five group endpoints with
 * the responses each declares, and `buildUrl`, which fills the `:key`
 * placeholders of a path template.
 */
module Api {
  import opened Wrappers
  import opened Strings

  /** `errorSchemas.validation`: a message and, optionally, the offending field. */
  datatype ValidationError = ValidationError(message: string, field: Option<string>)

  /** `errorSchemas.notFound`: a message only. */
  datatype NotFoundError = NotFoundError(message: string)

  /** The endpoints of `api.groups`. */
  datatype Endpoint = List | Get | Create | Update | Delete

  function EndpointMethod(e: Endpoint): string
  {
    match e
    case List => "GET"
    case Get => "GET"
    case Create => "POST"
    case Update => "PUT"
    case Delete => "DELETE"
  }

  const GroupsPath: string := "/api/groups"
  const GroupPath: string := "/api/groups/:id"

  function EndpointPath(e: Endpoint): string
  {
    if e == List || e == Create then GroupsPath else GroupPath
  }

  /** The status codes each endpoint's `responses` declares. */
  function DeclaredStatuses(e: Endpoint): (r: set<int>)
    ensures 200 in r || 201 in r || 204 in r
    ensures 400 in r <==> e == Create || e == Update
    ensures 404 in r <==> EndpointPath(e) == GroupPath
  {
    match e
    case List => {200}
    case Get => {200, 404}
    case Create => {201, 400}
    case Update => {200, 400, 404}
    case Delete => {204, 404}
  }

  /** A parameter value: `string | number` (integral numbers only). */
  datatype ParamValue = Text(s: string) | Number(n: int)

  /** `String(value)`. */
  function ValueString(v: ParamValue): (r: string)
    ensures v.Text? ==> r == v.s
    ensures v.Number? ==> '$' !in r && |r| >= 1 && (r[0] == '-' <==> v.n < 0)
  {
    match v
    case Text(s) => s
    case Number(n) => NumberToString(n)
  }

  /** The placeholder `:key` that a parameter named `key` fills. */
  function Placeholder(key: string): string
  {
    ":" + key
  }

  /** A url without a colon holds no placeholder. */
  lemma NoColonNoPlaceholder(url: string, key: string)
    ensures ':' !in url ==> !Contains(url, Placeholder(key))
  {
    if ':' !in url {
      forall i: nat | i <= |url| ensures !OccursAt(url, Placeholder(key), i) {
        if i + |Placeholder(key)| <= |url| {
          assert url[i..i + |Placeholder(key)|][0] == url[i];
        }
      }
    }
  }

  /** One step of the `forEach`: replace the first `:key` in `url`, if there is one. */
  function FillParam(url: string, key: string, value: ParamValue): (r: string)
    ensures !Contains(url, Placeholder(key)) ==> r == url
    ensures Contains(url, Placeholder(key)) ==> |r| >= |url| - |Placeholder(key)|
  {
    if Contains(url, Placeholder(key)) then ReplaceFirst(url, Placeholder(key), ValueString(value)) else url
  }

  /** The `forEach` over the entries, each step working on the previous step's result. */
  function FillParams(url: string, entries: seq<(string, ParamValue)>): (r: string)
    ensures ':' !in url ==> r == url
    decreases |entries|
  {
    if |entries| == 0 then url
    else
      NoColonNoPlaceholder(url, entries[0].0);
      FillParams(FillParam(url, entries[0].0, entries[0].1), entries[1..])
  }

  /** `buildUrl(path, params)`, with the entries in `Object.entries` order. */
  method BuildUrl(path: string, params: Option<seq<(string, ParamValue)>>) returns (url: string)
    ensures params.None? ==> url == path
    ensures params.Some? ==> url == FillParams(path, params.value)
  {
    url := path;
    if params.Some? {
      var entries := params.value;
      var i := 0;
      while i < |entries|
        invariant 0 <= i <= |entries|
        invariant FillParams(url, entries[i..]) == FillParams(path, entries)
      {
        var (key, value) := entries[i];
        assert entries[i..][1..] == entries[i + 1..];
        if Contains(url, Placeholder(key)) {
          url := ReplaceFirst(url, Placeholder(key), ValueString(value));
        }
        i := i + 1;
      }
    }
  }

  /** No entries leave the path as it is. */
  lemma NoParamsUnchanged(path: string)
    ensures FillParams(path, []) == path
  {
  }

  /**
   * A key whose placeholder is absent changes nothing; otherwise only the
   * first occurrence of the placeholder is replaced by the value (taken
   * literally when it holds no `$`), and the rest of the url is kept.
   */
  lemma FillParamEffect(url: string, key: string, value: ParamValue)
    requires '$' !in ValueString(value)
    ensures !Contains(url, Placeholder(key)) ==> FillParam(url, key, value) == url
    ensures Contains(url, Placeholder(key)) ==>
      exists i: nat :: i <= |url| && OccursAt(url, Placeholder(key), i)
        && (forall j: nat :: j < i ==> !OccursAt(url, Placeholder(key), j))
        && FillParam(url, key, value) == url[..i] + ValueString(value) + url[i + |Placeholder(key)|..]
  {
    ReplaceFirstSplits(url, Placeholder(key), ValueString(value));
  }

  /** The entries are applied in order: filling with `e1 + e2` is filling with `e1`, then `e2`. */
  lemma {:induction false} FillParamsAppend(url: string, e1: seq<(string, ParamValue)>, e2: seq<(string, ParamValue)>)
    ensures FillParams(url, e1 + e2) == FillParams(FillParams(url, e1), e2)
    decreases |e1|
  {
    if |e1| > 0 {
      assert (e1 + e2)[0] == e1[0];
      assert (e1 + e2)[1..] == e1[1..] + e2;
      FillParamsAppend(FillParam(url, e1[0].0, e1[0].1), e1[1..], e2);
    } else {
      assert e1 + e2 == e2;
    }
  }

  /** A placeholder found at `i`, with no colon before `i`, is the first occurrence. */
  lemma FirstColonAt(s: string, pat: string, i: nat)
    requires |pat| > 0 && pat[0] == ':' && OccursAt(s, pat, i)
    requires forall j :: 0 <= j < i ==> s[j] != ':'
    ensures IndexOf(s, pat) == Some(i)
  {
  }

  /**
   * The first placeholder behind a colon-free prefix is replaced by the
   * value, and whatever follows it is kept as it is, later copies of the
   * same placeholder included.
   */
  lemma FillFirstPlaceholder(pre: string, key: string, value: ParamValue, rest: string)
    requires ':' !in pre && '$' !in ValueString(value)
    ensures FillParams(pre + Placeholder(key) + rest, [(key, value)]) == pre + ValueString(value) + rest
  {
    var s := pre + Placeholder(key) + rest;
    var n := |Placeholder(key)|;
    assert s[|pre|..|pre| + n] == Placeholder(key);
    assert forall j :: 0 <= j < |pre| ==> s[j] == pre[j];
    FirstColonAt(s, Placeholder(key), |pre|);
    SubstituteLiteral(ValueString(value), Placeholder(key), s[..|pre|], s[|pre| + n..]);
    assert s[..|pre|] == pre && s[|pre| + n..] == rest;
    assert FillParams(s, [(key, value)]) == FillParams(FillParam(s, key, value), []);
  }

  /** Only the first copy of a repeated placeholder is filled. */
  lemma RepeatedPlaceholder(pre: string, key: string, mid: string, value: ParamValue)
    requires ':' !in pre && '$' !in ValueString(value)
    ensures FillParams(pre + Placeholder(key) + (mid + Placeholder(key)), [(key, value)])
         == pre + ValueString(value) + (mid + Placeholder(key))
  {
    FillFirstPlaceholder(pre, key, value, mid + Placeholder(key));
  }

  /** Matching is by substring: the key `id` fills the start of a placeholder `:idx`. */
  lemma SubstringMatch(pre: string, value: ParamValue)
    requires ':' !in pre && '$' !in ValueString(value)
    ensures FillParams(pre + ":idx", [("id", value)]) == pre + ValueString(value) + "x"
  {
    assert pre + ":idx" == pre + Placeholder("id") + "x";
    FillFirstPlaceholder(pre, "id", value, "x");
  }

  /** A value that itself holds `:y` is rewritten by a later key `y`. */
  lemma LaterKeyRewritesValue(pre: string, x: string, y: string, value: ParamValue)
    requires ':' !in pre && '$' !in y && '$' !in ValueString(value)
    ensures FillParams(pre + Placeholder(x), [(x, Text(Placeholder(y))), (y, value)]) == pre + ValueString(value)
  {
    var entries := [(x, Text(Placeholder(y))), (y, value)];
    assert '$' !in Placeholder(y);
    FillFirstPlaceholder(pre, x, Text(Placeholder(y)), "");
    assert pre + Placeholder(x) + "" == pre + Placeholder(x);
    FillParamsAppend(pre + Placeholder(x), [entries[0]], [entries[1]]);
    assert [entries[0]] + [entries[1]] == entries;
    FillFirstPlaceholder(pre, y, value, "");
    assert pre + Placeholder(y) + "" == pre + Placeholder(y);
    assert pre + ValueString(value) + "" == pre + ValueString(value);
  }

  /** A text value is not inserted literally: `$&` in it stands for the placeholder it replaces. */
  lemma DollarPatternInValue(pre: string, key: string, rest: string)
    requires ':' !in pre
    ensures FillParams(pre + Placeholder(key) + rest, [(key, Text("$&"))]) == pre + Placeholder(key) + rest
  {
    var s := pre + Placeholder(key) + rest;
    var n := |Placeholder(key)|;
    assert s[|pre|..|pre| + n] == Placeholder(key);
    assert forall j :: 0 <= j < |pre| ==> s[j] == pre[j];
    FirstColonAt(s, Placeholder(key), |pre|);
    assert s[..|pre|] == pre && s[|pre| + n..] == rest;
    assert "$&"[2..] == "";
    assert Substitute("$&", Placeholder(key), pre, rest) == Placeholder(key);
    assert ReplaceFirst(s, Placeholder(key), "$&") == pre + Placeholder(key) + rest;
    assert FillParams(s, [(key, Text("$&"))]) == FillParams(FillParam(s, key, Text("$&")), []);
  }

  /** The item path filled with a numeric id is the collection path, a slash and the id's text. */
  lemma GroupUrl(n: int)
    ensures FillParams(GroupPath, [("id", Number(n))]) == "/api/groups/" + NumberToString(n)
  {
    assert GroupPath == "/api/groups/" + Placeholder("id") + "";
    FillFirstPlaceholder("/api/groups/", "id", Number(n), "");
  }
}
