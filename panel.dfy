/** The remote hosting panel as the two workflows see it. HTTP is abstracted into requests and
    responses, and an HTML page into the parts the workflows query: its `<input>` elements,
    its table rows, and its `<div>` elements with their first form. The panel itself is a
    deterministic function from the requests already sent and the next request to an answer
    (a response, or a transport error), so cookies and server-side state are whatever that
    function makes of the history. */
module Panel {

  import opened Wrappers
  import opened Text

  /** An `<input>`: its `name` attribute and its `value` attribute, if present. */
  datatype Input = Input(name: string, value: Option<string>)

  /** A `<form>`: its `action` attribute, if present, and its inputs in document order. */
  datatype Form = Form(action: Option<string>, inputs: seq<Input>)

  /** A `<tr>`: its markup as `str(row)` renders it, and the `href` of its first `<a href>`. */
  datatype Row = Row(markup: string, link: Option<string>)

  /** A `<div>`: its `id` attribute, if present, and the first `<form>` inside it. */
  datatype Div = Div(id: Option<string>, form: Option<Form>)

  /** A parsed page, each list in document order. */
  datatype Document = Document(inputs: seq<Input>, rows: seq<Row>, divs: seq<Div>)

  /** A response: status code, final URL (after redirects), body text and its parse. */
  datatype Response = Response(status: int, url: string, text: string, doc: Document)

  /** What a request yields: a response, or an exception raised by the HTTP client. */
  datatype Fetch = Received(response: Response) | TransportError(message: string)

  /** A GET, or a form-encoded POST with its fields in order. */
  datatype Request = Get(url: string) | Post(url: string, fields: seq<(string, string)>)

  /** The panel: the answer to a request, given the requests sent before it. */
  type Server = (seq<Request>, Request) -> Fetch

  /** The answer the panel gave to the `k`-th request of a trace. */
  function Answer(panel: Server, trace: seq<Request>, k: nat): Fetch
    requires k < |trace|
  {
    panel(trace[..k], trace[k])
  }

  /** The page the panel returned for request `k` of the trace. */
  function Page(panel: Server, trace: seq<Request>, k: nat): Response
    requires k < |trace| && Answer(panel, trace, k).Received?
  {
    Answer(panel, trace, k).response
  }

  /** A panel that answers each request by its position in the trace, whatever was sent
      before. */
  function Sequential(fetch: (nat, Request) -> Fetch): Server
  {
    (history: seq<Request>, r: Request) => fetch(|history|, r)
  }

  lemma SequentialAnswer(fetch: (nat, Request) -> Fetch, trace: seq<Request>, k: nat)
    requires k < |trace|
    ensures Answer(Sequential(fetch), trace, k) == fetch(k, trace[k])
  {
  }

  /** Sending one more request leaves the earlier answers as they were. */
  lemma AnswersAfterSend(panel: Server, trace: seq<Request>, request: Request)
    ensures forall k :: 0 <= k < |trace| ==> Answer(panel, trace + [request], k) == Answer(panel, trace, k)
    ensures Answer(panel, trace + [request], |trace|) == panel(trace, request)
  {
    forall k | 0 <= k < |trace|
      ensures Answer(panel, trace + [request], k) == Answer(panel, trace, k)
    {
      assert (trace + [request])[..k] == trace[..k];
    }
    assert (trace + [request])[..|trace|] == trace;
  }

  const CsrfField := "csrfmiddlewaretoken"

  /** `str(e)` for `None['value']`: the input was not found. */
  const NoneNotSubscriptable := "'NoneType' object is not subscriptable"
  /** `str(e)` for `KeyError('value')`: the input has no value attribute. */
  const MissingValueKey := "'value'"

  /** The index of the first element satisfying `p`: BeautifulSoup's `find`, and the
      `for ... if ...: break` scans, all pick the first match in document order. */
  function FirstIndex<T>(xs: seq<T>, p: T -> bool): (r: Option<nat>)
    ensures r.None? <==> forall i :: 0 <= i < |xs| ==> !p(xs[i])
    ensures r.Some? ==> r.value < |xs| && p(xs[r.value])
    ensures r.Some? ==> forall j :: 0 <= j < r.value ==> !p(xs[j])
  {
    if xs == [] then None
    else if p(xs[0]) then Some(0)
    else match FirstIndex(xs[1..], p)
      case None => None
      case Some(k) => Some(k + 1)
  }

  /** `inputs[k]` is the first input called `name`. */
  predicate FirstNamed(inputs: seq<Input>, name: string, k: int)
  {
    0 <= k < |inputs| && inputs[k].name == name && forall j :: 0 <= j < k ==> inputs[j].name != name
  }

  /** `find('input', {'name': name})` among a list of inputs. */
  function FindInput(inputs: seq<Input>, name: string): (r: Option<nat>)
    ensures r.None? <==> forall k :: 0 <= k < |inputs| ==> inputs[k].name != name
    ensures r.Some? ==> FirstNamed(inputs, name, r.value)
  {
    FirstIndex(inputs, (i: Input) => i.name == name)
  }

  /** `soup.find('input', {'name': 'csrfmiddlewaretoken'})['value']`: the token, or the text
      of the exception raised when the input or its value is missing. */
  function CsrfToken(inputs: seq<Input>): (r: Result<string, string>)
    ensures r.Ok? ==> exists k :: FirstNamed(inputs, CsrfField, k) && inputs[k].value == Some(r.value)
    ensures r == Err(MissingValueKey) <==> exists k :: FirstNamed(inputs, CsrfField, k) && inputs[k].value.None?
    ensures r == Err(NoneNotSubscriptable) <==> forall k :: 0 <= k < |inputs| ==> inputs[k].name != CsrfField
    ensures r.Err? ==> r.error == NoneNotSubscriptable || r.error == MissingValueKey
  {
    match FindInput(inputs, CsrfField)
    case None => Err(NoneNotSubscriptable)
    case Some(k) =>
      match inputs[k].value
      case None => Err(MissingValueKey)
      case Some(v) => Ok(v)
  }

  /** `str(row)` contains one of the fragments (the `a in row_text or b in row_text` tests). */
  predicate RowMentions(row: Row, fragments: seq<string>)
  {
    exists k :: 0 <= k < |fragments| && Contains(row.markup, fragments[k])
  }

  /** Mentioning one of a single fragment is containing it. */
  lemma MentionsOne(row: Row, fragment: string)
    ensures RowMentions(row, [fragment]) <==> Contains(row.markup, fragment)
  {
    if Contains(row.markup, fragment) {
      assert [fragment][0] == fragment;
    }
  }

  /** `rows[i]` is the first row mentioning one of the fragments. */
  predicate FirstMentioning(rows: seq<Row>, fragments: seq<string>, i: int)
  {
    0 <= i < |rows| && RowMentions(rows[i], fragments)
    && forall j :: 0 <= j < i ==> !RowMentions(rows[j], fragments)
  }

  /** The first row mentioning one of the fragments: the reference `ScanRows` is proved against. */
  function FirstRowMentioning(rows: seq<Row>, fragments: seq<string>): (r: Option<nat>)
    ensures r.None? <==> forall i :: 0 <= i < |rows| ==> !RowMentions(rows[i], fragments)
    ensures r.Some? ==> FirstMentioning(rows, fragments, r.value)
  {
    FirstIndex(rows, (row: Row) => RowMentions(row, fragments))
  }

  /** The row scan of the reset workflow: walk the rows, stop at the first one whose markup
      contains one of the fragments. */
  method ScanRows(rows: seq<Row>, fragments: seq<string>) returns (found: Option<nat>)
    ensures found.None? <==> forall i :: 0 <= i < |rows| ==> !RowMentions(rows[i], fragments)
    ensures found.Some? ==> FirstMentioning(rows, fragments, found.value)
    ensures found == FirstRowMentioning(rows, fragments)
  {
    found := None;
    var i := 0;
    while i < |rows|
      invariant 0 <= i <= |rows|
      invariant forall j :: 0 <= j < i ==> !RowMentions(rows[j], fragments)
    {
      var text := rows[i].markup;
      var k := 0;
      var hit := false;
      while k < |fragments|
        invariant 0 <= k <= |fragments|
        invariant hit <==> exists m :: 0 <= m < k && Contains(text, fragments[m])
      {
        hit := hit || Contains(text, fragments[k]);
        k := k + 1;
      }
      if hit {
        found := Some(i);
        break;
      }
      i := i + 1;
    }
    var reference := FirstRowMentioning(rows, fragments);
    if found.Some? && reference.Some? {
      assert !(found.value < reference.value) && !(reference.value < found.value);
    }
  }

  /** `divs[k]` is the first div with that id. */
  predicate FirstWithId(divs: seq<Div>, id: string, k: int)
  {
    0 <= k < |divs| && divs[k].id == Some(id) && forall j :: 0 <= j < k ==> divs[j].id != Some(id)
  }

  /** `find('div', id=...)`: the first div with that id. */
  function FindDiv(divs: seq<Div>, id: string): (r: Option<nat>)
    ensures r.None? <==> forall k :: 0 <= k < |divs| ==> divs[k].id != Some(id)
    ensures r.Some? ==> FirstWithId(divs, id, r.value)
  {
    FirstIndex(divs, (d: Div) => d.id == Some(id))
  }

  /** The panel host and the shared account the application logs in with. */
  datatype Account = Account(host: string, username: string, password: string)

  /** `https://{host}{path}`. */
  function PanelUrl(host: string, path: string): string
  {
    "https://" + host + path
  }

  /** The login page, redirecting to `next` afterwards. */
  function LoginUrl(host: string, next: string): string
  {
    PanelUrl(host, "/login/?next=" + next)
  }

  /** The login form, fields in the order the source builds them. */
  function LoginFields(account: Account, token: string, next: string): seq<(string, string)>
  {
    [("username", account.username), ("password", account.password), (CsrfField, token), ("next", next)]
  }
}
