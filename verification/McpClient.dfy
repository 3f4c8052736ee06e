/** The JSON values that travel to and from an MCP server, with the accessors of `serde_json`. */
module Json {
  import opened Common

  datatype Value =
    | Null
    | Bool(b: bool)
    | Int(n: int)
    | Float(r: real)
    | Str(s: string)
    | Arr(items: seq<Value>)
    | Obj(fields: map<string, Value>)

  function Get(v: Value, key: string): Option<Value> {
    if v.Obj? && key in v.fields then Some(v.fields[key]) else None
  }

  function AsU64(v: Option<Value>): Option<nat> {
    if v.Some? && v.value.Int? && 0 <= v.value.n < U64_LIMIT then Some(v.value.n) else None
  }

  function AsStr(v: Option<Value>): Option<string> {
    if v.Some? && v.value.Str? then Some(v.value.s) else None
  }

  function AsArray(v: Option<Value>): Option<seq<Value>> {
    if v.Some? && v.value.Arr? then Some(v.value.items) else None
  }

  function StrOr(v: Option<Value>, default: string): string {
    if v.Some? && v.value.Str? then v.value.s else default
  }
}

/**
 The MCP client: requests are matched to responses by id over a stream that also carries notifications and
 responses to other requests, and `tools/list` follows the server's cursors from page to page.
 */
module McpClient {
  import opened Common
  import opened Json

  type U64 = n: nat | n < U64_LIMIT

  datatype Error = Io | Protocol(message: string) | ServerGone

  datatype ToolInfo = ToolInfo(name: string, description: string, inputSchema: Value)

  datatype Request = Request(id: U64, rpcMethod: string, params: Value)

  /**
   The client and its transport: `incoming` is what the server will write, one result per read, and reading past
   its end finds the server gone; `faults` are the send attempts that fail.
   */
  datatype Client = Client(nextId: U64, buffer: seq<Value>, sent: seq<Request>, attempts: nat, faults: set<nat>,
                           incoming: seq<Result<Value, Error>>)

  const DEFAULT_SCHEMA := Obj(map["type" := Str("object"), "properties" := Obj(map[])])

  /** The 64-bit counter wraps around. */
  function Succ(id: U64): U64 {
    if id + 1 == U64_LIMIT then 0 else id + 1
  }

  // One message, seen by a request that waits for `id`.

  datatype Reaction = Buffer | Fail(error: Error) | Answer(result: Value)

  function React(msg: Value, id: U64): Reaction {
    if Get(msg, "id").None? then Buffer
    else if Get(msg, "error").Some? then Fail(Protocol(ErrorText(Get(msg, "error").value)))
    else if AsU64(Get(msg, "id")) == Some(id) then
      if Get(msg, "result").Some? then Answer(Get(msg, "result").value) else Fail(Protocol("response missing 'result'"))
    else Buffer
  }

  function ErrorText(error: Value): string {
    StrOr(Get(error, "message"), "unknown error")
  }

  /** Read until a message decides the request. */
  function Await(c: Client, id: U64): (Client, Result<Value, Error>)
    decreases |c.incoming|
  {
    if c.incoming == [] then (c, Err(ServerGone))
    else
      var rest := c.(incoming := c.incoming[1..]);
      match c.incoming[0]
      case Err(e) => (rest, Err(e))
      case Ok(msg) =>
        match React(msg, id)
        case Buffer => Await(rest.(buffer := c.buffer + [msg]), id)
        case Fail(e) => (rest, Err(e))
        case Answer(v) => (rest, Ok(v))
  }

  function Rpc(c: Client, req: Request): (Client, Result<Value, Error>) {
    if c.attempts in c.faults then (c.(attempts := c.attempts + 1), Err(Io))
    else Await(c.(attempts := c.attempts + 1, sent := c.sent + [req]), req.id)
  }

  // One page of `tools/list`.

  function ParseTool(tool: Value): Result<ToolInfo, Error> {
    match AsStr(Get(tool, "name"))
    case None => Err(Protocol("tool missing 'name' field"))
    case Some(name) =>
      var schema := Get(tool, "inputSchema");
      Ok(ToolInfo(name, StrOr(Get(tool, "description"), ""), if schema.Some? then schema.value else DEFAULT_SCHEMA))
  }

  function ParseTools(items: seq<Value>): Result<seq<ToolInfo>, Error> {
    if items == [] then Ok([])
    else
      match ParseTool(items[0])
      case Err(e) => Err(e)
      case Ok(tool) =>
        match ParseTools(items[1..])
        case Err(e) => Err(e)
        case Ok(tools) => Ok([tool] + tools)
  }

  function PageTools(result: Value): Result<seq<ToolInfo>, Error> {
    match AsArray(Get(result, "tools"))
    case None => Err(Protocol("tools/list: missing 'tools' array"))
    case Some(items) => ParseTools(items)
  }

  function NextCursor(result: Value): Option<string> {
    AsStr(Get(result, "nextCursor"))
  }

  function ListRequest(id: U64, cursor: Option<string>): Request {
    Request(id, "tools/list", if cursor.None? then Obj(map[]) else Obj(map["cursor" := Str(cursor.value)]))
  }

  lemma {:induction false} AwaitConsumes(c: Client, id: U64)
    ensures |Await(c, id).0.incoming| <= |c.incoming|
    ensures Await(c, id).1.Ok? ==> |Await(c, id).0.incoming| < |c.incoming|
    decreases |c.incoming|
  {
    if c.incoming != [] && c.incoming[0].Ok? && React(c.incoming[0].value, id).Buffer? {
      AwaitConsumes(c.(incoming := c.incoming[1..], buffer := c.buffer + [c.incoming[0].value]), id);
    }
  }

  function List(c: Client, cursor: Option<string>): (Client, Result<seq<ToolInfo>, Error>)
    decreases |c.incoming|
  {
    var issued := c.(nextId := Succ(c.nextId));
    var (after, answer) := Rpc(issued, ListRequest(c.nextId, cursor));
    match answer
    case Err(e) => (after, Err(e))
    case Ok(result) =>
      match PageTools(result)
      case Err(e) => (after, Err(e))
      case Ok(tools) =>
        if NextCursor(result).None? then (after, Ok(tools))
        else
          AwaitConsumes(issued.(attempts := c.attempts + 1, sent := c.sent + [ListRequest(c.nextId, cursor)]),
            c.nextId);
          var (final, more) := List(after, NextCursor(result));
          (final, if more.Err? then more else Ok(tools + more.value))
  }

  // What a server that answers page by page sends, and what the client must make of it.

  /** Messages that a waiting request sets aside, then the response that it takes. */
  datatype Page = Page(noise: seq<Value>, response: Value)

  function Messages(values: seq<Value>): seq<Result<Value, Error>> {
    seq(|values|, i requires 0 <= i < |values| => Ok(values[i]))
  }

  function Wire(pages: seq<Page>): seq<Result<Value, Error>> {
    if pages == [] then [] else Messages(pages[0].noise) + [Ok(pages[0].response)] + Wire(pages[1..])
  }

  predicate AllBuffered(noise: seq<Value>, id: U64) {
    forall i :: 0 <= i < |noise| ==> React(noise[i], id).Buffer?
  }

  /** The page answers request `id`: its response carries that id, no error, and a well-formed tool array. */
  predicate Answers(page: Page, id: U64) {
    && AllBuffered(page.noise, id)
    && React(page.response, id).Answer?
    && PageTools(React(page.response, id).result).Ok?
  }

  function PageResult(page: Page): Value
  {
    var r := Get(page.response, "result");
    if r.Some? then r.value else Null
  }

  /** A cursor chain: every page but the last names a next cursor. */
  predicate IsChain(pages: seq<Page>, id: U64) {
    && pages != []
    && Answers(pages[0], id)
    && if |pages| == 1 then NextCursor(PageResult(pages[0])).None?
       else NextCursor(PageResult(pages[0])).Some? && IsChain(pages[1..], Succ(id))
  }

  function AllNoise(pages: seq<Page>): seq<Value> {
    if pages == [] then [] else pages[0].noise + AllNoise(pages[1..])
  }

  function AllTools(pages: seq<Page>): seq<ToolInfo> {
    if pages == [] then []
    else
      var tools := PageTools(PageResult(pages[0]));
      (if tools.Ok? then tools.value else []) + AllTools(pages[1..])
  }

  function Requests(pages: seq<Page>, id: U64, cursor: Option<string>): seq<Request> {
    if pages == [] then []
    else [ListRequest(id, cursor)] + Requests(pages[1..], Succ(id), NextCursor(PageResult(pages[0])))
  }

  /** The counter after `n` more requests. */
  function IdAfter(id: U64, n: nat): U64
    decreases n
  {
    if n == 0 then id else IdAfter(Succ(id), n - 1)
  }

  /** No send among the next `n` attempts fails. */
  predicate SendsSucceed(c: Client, n: nat) {
    forall k :: c.attempts <= k < c.attempts + n ==> k !in c.faults
  }

  // Proofs.

  lemma {:induction false} AwaitSkipsNoise(c: Client, id: U64, noise: seq<Value>, rest: seq<Result<Value, Error>>)
    requires c.incoming == Messages(noise) + rest && AllBuffered(noise, id)
    ensures Await(c, id) == Await(c.(incoming := rest, buffer := c.buffer + noise), id)
    decreases |noise|
  {
    if noise == [] {
      assert c.incoming == rest && c.buffer + noise == c.buffer;
    } else {
      assert c.incoming[0] == Ok(noise[0]);
      var next := c.(incoming := c.incoming[1..], buffer := c.buffer + [noise[0]]);
      assert next.incoming == Messages(noise[1..]) + rest;
      AwaitSkipsNoise(next, id, noise[1..], rest);
      assert next.buffer + noise[1..] == c.buffer + noise;
    }
  }

  lemma {:induction false} AwaitFindsPage(c: Client, id: U64) returns (page: Page)
    requires Await(c, id).1.Ok?
    ensures AllBuffered(page.noise, id) && React(page.response, id) == Answer(Await(c, id).1.value)
    ensures c.incoming == Messages(page.noise) + [Ok(page.response)] + Await(c, id).0.incoming
    decreases |c.incoming|
  {
    var msg := c.incoming[0].value;
    if React(msg, id).Buffer? {
      var next := c.(incoming := c.incoming[1..], buffer := c.buffer + [msg]);
      var tail := AwaitFindsPage(next, id);
      page := Page([msg] + tail.noise, tail.response);
      assert Messages(page.noise) == [c.incoming[0]] + Messages(tail.noise);
    } else {
      page := Page([], msg);
      assert Messages([]) == [];
      assert c.incoming == [Ok(msg)] + c.incoming[1..];
    }
  }

  /** Ids are consecutive, and repeat only after the 64-bit counter has wrapped. */
  lemma {:induction false} IdsAreConsecutive(id: U64, n: nat)
    ensures id + n < U64_LIMIT ==> IdAfter(id, n) == id + n
    ensures id + n >= U64_LIMIT ==> IdAfter(id, n) == IdAfter(0, id + n - U64_LIMIT)
    ensures IdAfter(id, n + 1) == Succ(IdAfter(id, n))
    decreases n
  {
    if n > 0 {
      IdsAreConsecutive(Succ(id), n - 1);
    }
  }

  /** One page: the request goes out, the noise is set aside, the response is taken. */
  lemma {:induction false} RpcTakesPage(c: Client, req: Request, page: Page, tail: seq<Result<Value, Error>>)
    requires Answers(page, req.id) && c.incoming == Messages(page.noise) + [Ok(page.response)] + tail
    requires c.attempts !in c.faults
    ensures Rpc(c, req) ==
      (c.(attempts := c.attempts + 1, sent := c.sent + [req], buffer := c.buffer + page.noise, incoming := tail),
       Ok(PageResult(page)))
  {
    var asked := c.(attempts := c.attempts + 1, sent := c.sent + [req]);
    assert c.incoming == Messages(page.noise) + ([Ok(page.response)] + tail);
    AwaitSkipsNoise(asked, req.id, page.noise, [Ok(page.response)] + tail);
    assert ([Ok(page.response)] + tail)[1..] == tail;
  }

  /** For every interleaving of set-aside messages, a server whose cursor chain ends is read to its end. */
  lemma {:induction false} ListFollowsChain(c: Client, cursor: Option<string>, pages: seq<Page>,
                                            rest: seq<Result<Value, Error>>)
    requires IsChain(pages, c.nextId) && c.incoming == Wire(pages) + rest && SendsSucceed(c, |pages|)
    ensures List(c, cursor) == (AfterChain(c, cursor, pages, rest), Ok(AllTools(pages)))
    decreases |pages|
  {
    var page := pages[0];
    var tail := Wire(pages[1..]) + rest;
    var req := ListRequest(c.nextId, cursor);
    assert c.incoming == Messages(page.noise) + [Ok(page.response)] + tail;
    var issued := c.(nextId := Succ(c.nextId));
    RpcTakesPage(issued, req, page, tail);
    var after := Rpc(issued, req).0;
    if |pages| == 1 {
      assert tail == rest;
      AfterLastPage(c, cursor, pages, rest);
    } else {
      ListFollowsChain(after, NextCursor(PageResult(page)), pages[1..], rest);
      AfterFirstPage(c, cursor, pages, rest, after);
    }
  }

  function AfterChain(c: Client, cursor: Option<string>, pages: seq<Page>, rest: seq<Result<Value, Error>>): Client {
    c.(nextId := IdAfter(c.nextId, |pages|),
       buffer := c.buffer + AllNoise(pages),
       sent := c.sent + Requests(pages, c.nextId, cursor),
       attempts := c.attempts + |pages|,
       incoming := rest)
  }

  lemma {:induction false} AfterLastPage(c: Client, cursor: Option<string>, pages: seq<Page>,
                                         rest: seq<Result<Value, Error>>)
    requires |pages| == 1 && PageTools(PageResult(pages[0])).Ok?
    ensures AfterChain(c, cursor, pages, rest) ==
      c.(nextId := Succ(c.nextId), attempts := c.attempts + 1, sent := c.sent + [ListRequest(c.nextId, cursor)],
         buffer := c.buffer + pages[0].noise, incoming := rest)
    ensures AllTools(pages) == PageTools(PageResult(pages[0])).value
  {
    assert pages[1..] == [];
    assert AllNoise(pages) == pages[0].noise;
    assert Requests(pages, c.nextId, cursor) == [ListRequest(c.nextId, cursor)];
  }

  lemma {:induction false} AfterFirstPage(c: Client, cursor: Option<string>, pages: seq<Page>,
                                          rest: seq<Result<Value, Error>>, after: Client)
    requires pages != []
    requires after == c.(nextId := Succ(c.nextId), attempts := c.attempts + 1,
      sent := c.sent + [ListRequest(c.nextId, cursor)],
                         buffer := c.buffer + pages[0].noise, incoming := after.incoming)
    ensures AfterChain(after, NextCursor(PageResult(pages[0])), pages[1..], rest) == AfterChain(c, cursor, pages, rest)
  {
    Associates(c.buffer, pages[0].noise, AllNoise(pages[1..]));
    Associates(c.sent, [ListRequest(c.nextId, cursor)],
               Requests(pages[1..], after.nextId, NextCursor(PageResult(pages[0]))));
  }

  lemma {:induction false} WireCons(page: Page, more: seq<Page>)
    ensures Wire([page] + more) == Messages(page.noise) + [Ok(page.response)] + Wire(more)
  {
    assert ([page] + more)[1..] == more;
  }

  lemma {:induction false} ChainCons(page: Page, more: seq<Page>, id: U64)
    requires Answers(page, id)
    requires if more == [] then NextCursor(PageResult(page)).None?
             else NextCursor(PageResult(page)).Some? && IsChain(more, Succ(id))
    ensures IsChain([page] + more, id)
  {
    assert ([page] + more)[1..] == more;
  }

  /** Conversely, a list is returned only for such a stream. */
  lemma {:induction false} ListSucceedsOnlyOnChain(c: Client, cursor: Option<string>) returns (pages: seq<Page>)
    requires List(c, cursor).1.Ok?
    ensures IsChain(pages, c.nextId) && SendsSucceed(c, |pages|)
    ensures c.incoming == Wire(pages) + List(c, cursor).0.incoming
    decreases |c.incoming|
  {
    var asked := c.(nextId := Succ(c.nextId), attempts := c.attempts + 1,
      sent := c.sent + [ListRequest(c.nextId, cursor)]);
    var page := AwaitFindsPage(asked, c.nextId);
    AwaitConsumes(asked, c.nextId);
    AwaitKeepsRest(asked, c.nextId);
    var (after, answer) := Await(asked, c.nextId);
    assert answer.value == PageResult(page);
    var more := [];
    if NextCursor(answer.value).Some? {
      more := ListSucceedsOnlyOnChain(after, NextCursor(answer.value));
      Associates(Messages(page.noise) + [Ok(page.response)], Wire(more),
        List(after, NextCursor(answer.value)).0.incoming);
    } else {
      assert Wire(more) == [];
    }
    pages := [page] + more;
    WireCons(page, more);
    ChainCons(page, more, c.nextId);
  }

  lemma {:induction false} AwaitKeepsRest(c: Client, id: U64)
    ensures var after := Await(c, id).0;
      after.nextId == c.nextId && after.sent == c.sent && after.attempts == c.attempts && after.faults == c.faults
    decreases |c.incoming|
  {
    if c.incoming != [] && c.incoming[0].Ok? && React(c.incoming[0].value, id).Buffer? {
      AwaitKeepsRest(c.(incoming := c.incoming[1..], buffer := c.buffer + [c.incoming[0].value]), id);
    }
  }

  ghost predicate StartsWithChain(c: Client) {
    exists pages: seq<Page> :: IsChain(pages, c.nextId) && Wire(pages) <= c.incoming && SendsSucceed(c, |pages|)
  }

  lemma {:induction false} ChainIsEnough(c: Client, cursor: Option<string>, pages: seq<Page>)
    requires IsChain(pages, c.nextId) && Wire(pages) <= c.incoming && SendsSucceed(c, |pages|)
    ensures List(c, cursor).1 == Ok(AllTools(pages))
  {
    var rest := c.incoming[|Wire(pages)|..];
    assert c.incoming == Wire(pages) + rest;
    ListFollowsChain(c, cursor, pages, rest);
  }

  lemma {:induction false} ChainIsNeeded(c: Client, cursor: Option<string>)
    requires List(c, cursor).1.Ok?
    ensures StartsWithChain(c)
  {
    var pages := ListSucceedsOnlyOnChain(c, cursor);
    assert Wire(pages) <= c.incoming;
  }

  /** `tools/list` succeeds exactly on the streams that start with a finished cursor chain. */
  lemma {:induction false} ListSucceedsIffChain(c: Client, cursor: Option<string>)
    ensures List(c, cursor).1.Ok? <==> StartsWithChain(c)
  {
    if List(c, cursor).1.Ok? { ChainIsNeeded(c, cursor); }
    if StartsWithChain(c) {
      var pages: seq<Page> :| IsChain(pages, c.nextId) && Wire(pages) <= c.incoming && SendsSucceed(c, |pages|);
      ChainIsEnough(c, cursor, pages);
    }
  }

  // The same key by key, as the JSON travels.

  function GetIn(v: Value, outer: string, inner: string): Option<Value> {
    if Get(v, outer).Some? then Get(Get(v, outer).value, inner) else None
  }

  /** One request per page, with consecutive ids: the first carries the given cursor or nothing, each later one the
      `nextCursor` of the page before it. */
  lemma {:induction false} RequestsFollowCursors(pages: seq<Page>, id: U64, cursor: Option<string>, i: nat)
    requires i < |pages|
    ensures |Requests(pages, id, cursor)| == |pages|
    ensures var req := Requests(pages, id, cursor)[i];
      var given := if i > 0 then GetIn(pages[i - 1].response, "result", "nextCursor")
                   else if cursor.Some? then Some(Str(cursor.value)) else None;
      && req.id == IdAfter(id, i) && req.rpcMethod == "tools/list"
      && req.params == Obj(if given.Some? && given.value.Str? then map["cursor" := given.value] else map[])
    decreases |pages|
  {
    if |pages| > 1 {
      RequestsFollowCursors(pages[1..], Succ(id), NextCursor(PageResult(pages[0])), if i == 0 then 0 else i - 1);
    }
  }

  predicate HasName(item: Value) {
    Get(item, "name").Some? && Get(item, "name").value.Str?
  }

  lemma {:induction false} ParsesIffNamed(items: seq<Value>)
    ensures ParseTools(items).Ok? <==> forall i :: 0 <= i < |items| ==> HasName(items[i])
  {
    if items != [] {
      ParsesIffNamed(items[1..]);
      assert items == [items[0]] + items[1..];
      assert (forall i :: 0 <= i < |items| ==> HasName(items[i])) <==>
        HasName(items[0]) && forall i :: 0 <= i < |items[1..]| ==> HasName(items[1..][i]) by {
        if HasName(items[0]) && forall i :: 0 <= i < |items[1..]| ==> HasName(items[1..][i]) {
          forall i | 0 <= i < |items| ensures HasName(items[i]) {
            if i > 0 { assert HasName(items[1..][i - 1]); }
          }
        }
        if forall i :: 0 <= i < |items| ==> HasName(items[i]) {
          forall i | 0 <= i < |items[1..]| ensures HasName(items[1..][i]) { assert HasName(items[i + 1]); }
        }
      }
    }
  }

  predicate SetAside(msg: Value, id: U64) {
    Get(msg, "id").None? || (Get(msg, "error").None? && Get(msg, "id") != Some(Int(id)))
  }

  /** A page that answers request `id` and says whether it is the last, in terms of the keys of its messages. */
  predicate PageByKeys(page: Page, id: U64, last: bool) {
    && (forall i :: 0 <= i < |page.noise| ==> SetAside(page.noise[i], id))
    && Get(page.response, "id") == Some(Int(id)) && Get(page.response, "error").None?
    && var tools, next := GetIn(page.response, "result", "tools"), GetIn(page.response, "result", "nextCursor");
       && tools.Some? && tools.value.Arr?
       && (forall i :: 0 <= i < |tools.value.items| ==> HasName(tools.value.items[i]))
       && (last <==> !(next.Some? && next.value.Str?))
  }

  lemma PageAnswersIff(page: Page, id: U64)
    ensures Answers(page, id) && NextCursor(PageResult(page)).None? <==> PageByKeys(page, id, true)
    ensures Answers(page, id) && NextCursor(PageResult(page)).Some? <==> PageByKeys(page, id, false)
  {
    forall i | 0 <= i < |page.noise| ensures React(page.noise[i], id).Buffer? <==> SetAside(page.noise[i], id) {
      DecidedByIdOrError(page.noise[i], id);
    }
    var tools := GetIn(page.response, "result", "tools");
    if tools.Some? && tools.value.Arr? {
      ParsesIffNamed(tools.value.items);
    }
  }

  ghost predicate ChainByKeys(pages: seq<Page>, id: U64) {
    && pages != []
    && forall i :: 0 <= i < |pages| ==> PageByKeys(pages[i], IdAfter(id, i), i == |pages| - 1)
  }

  /** A chain is exactly a sequence of such pages, each answering the next id, of which only the last has no cursor. */
  lemma {:induction false} ChainIffKeys(pages: seq<Page>, id: U64)
    ensures IsChain(pages, id) <==> ChainByKeys(pages, id)
    decreases |pages|
  {
    if pages != [] {
      PageAnswersIff(pages[0], id);
      if |pages| > 1 {
        ChainIffKeys(pages[1..], Succ(id));
        ChainByKeysRest(pages, id);
      }
    }
  }

  lemma ChainByKeysRest(pages: seq<Page>, id: U64)
    requires |pages| > 1
    ensures ChainByKeys(pages, id) <==> PageByKeys(pages[0], id, false) && ChainByKeys(pages[1..], Succ(id))
  {
    var rest := pages[1..];
    if ChainByKeys(pages, id) {
      assert PageByKeys(pages[0], IdAfter(id, 0), 0 == |pages| - 1);
      forall i | 0 <= i < |rest| ensures PageByKeys(rest[i], IdAfter(Succ(id), i), i == |rest| - 1) {
        assert PageByKeys(pages[i + 1], IdAfter(id, i + 1), i + 1 == |pages| - 1);
      }
    }
    if PageByKeys(pages[0], id, false) && ChainByKeys(rest, Succ(id)) {
      forall i | 0 <= i < |pages| ensures PageByKeys(pages[i], IdAfter(id, i), i == |pages| - 1) {
        if i > 0 { assert PageByKeys(rest[i - 1], IdAfter(Succ(id), i - 1), i - 1 == |rest| - 1); }
      }
    }
  }

  lemma OnePage(page: Page, items: seq<Value>)
    requires GetIn(page.response, "result", "tools") == Some(Arr(items)) && ParseTools(items).Ok?
    ensures AllTools([page]) == ParseTools(items).value && AllNoise([page]) == page.noise
  {
    assert [page][1..] == [];
    assert ParseTools(items).value + [] == ParseTools(items).value && page.noise + [] == page.noise;
  }

  /** Tools and set-aside messages of pages are put one behind the other. */
  lemma {:induction false} PagesInOrder(front: seq<Page>, back: seq<Page>)
    ensures AllTools(front + back) == AllTools(front) + AllTools(back)
    ensures AllNoise(front + back) == AllNoise(front) + AllNoise(back)
    decreases |front|
  {
    if front == [] {
      assert front + back == back;
    } else {
      assert (front + back)[1..] == front[1..] + back && (front + back)[0] == front[0];
      PagesInOrder(front[1..], back);
      Associates(front[0].noise, AllNoise(front[1..]), AllNoise(back));
      var tools := PageTools(PageResult(front[0]));
      Associates(if tools.Ok? then tools.value else [], AllTools(front[1..]), AllTools(back));
    }
  }

  // What each failure returns.

  function MessageOf(error: Value): string {
    if Get(error, "message").Some? && Get(error, "message").value.Str? then Get(error, "message").value.s
    else "unknown error"
  }

  /** A request whose send fails returns the transport's error and reads nothing. Otherwise, behind messages set aside,
      a read error is passed on, a message with an id and an error gives the server's text whatever that id is, the
      right id without a result is a protocol error, and the end of the stream means that the server is gone. */
  lemma RequestFailsAsTold(c: Client, req: Request, noise: seq<Value>, item: Result<Value, Error>,
                           rest: seq<Result<Value, Error>>)
    requires AllBuffered(noise, req.id)
    ensures c.attempts in c.faults ==> Rpc(c, req) == (c.(attempts := c.attempts + 1), Err(Io))
    ensures c.attempts !in c.faults && c.incoming == Messages(noise) ==> Rpc(c, req).1 == Err(ServerGone)
    ensures c.attempts !in c.faults && c.incoming == Messages(noise) + [item] + rest ==>
      var after := c.(attempts := c.attempts + 1, sent := c.sent + [req], buffer := c.buffer + noise, incoming := rest);
      && (item.Err? ==> Rpc(c, req) == (after, Err(item.error)))
      && (item.Ok? && Get(item.value, "id").Some? && Get(item.value, "error").Some? ==>
            Rpc(c, req) == (after, Err(Protocol(MessageOf(Get(item.value, "error").value)))))
      && (item.Ok? && Get(item.value, "id") == Some(Int(req.id)) && Get(item.value, "error").None? ==>
            Rpc(c, req) == (after, if Get(item.value, "result").Some? then Ok(Get(item.value, "result").value)
                                   else Err(Protocol("response missing 'result'"))))
  {
    var asked := c.(attempts := c.attempts + 1, sent := c.sent + [req]);
    if c.attempts !in c.faults {
      if c.incoming == Messages(noise) {
        assert c.incoming == Messages(noise) + [];
        AwaitSkipsNoise(asked, req.id, noise, []);
      }
      if c.incoming == Messages(noise) + [item] + rest {
        assert c.incoming == Messages(noise) + ([item] + rest);
        AwaitSkipsNoise(asked, req.id, noise, [item] + rest);
        assert ([item] + rest)[0] == item && ([item] + rest)[1..] == rest;
      }
    }
  }

  /** The list fails as its first failing request does, or for a page without a tool array or with a nameless tool. */
  lemma ListFailsAsTold(c: Client, cursor: Option<string>)
    ensures var (after, answer) := Rpc(c.(nextId := Succ(c.nextId)), ListRequest(c.nextId, cursor));
      && (answer.Err? ==> List(c, cursor) == (after, Err(answer.error)))
      && (answer.Ok? && !(Get(answer.value, "tools").Some? && Get(answer.value, "tools").value.Arr?) ==>
            List(c, cursor) == (after, Err(Protocol("tools/list: missing 'tools' array"))))
      && (answer.Ok? && Get(answer.value, "tools").Some? && Get(answer.value, "tools").value.Arr?
          && !(forall i :: 0 <= i < |Get(answer.value, "tools").value.items| ==>
                 HasName(Get(answer.value, "tools").value.items[i])) ==>
            List(c, cursor) == (after, Err(Protocol("tool missing 'name' field"))))
  {
    var answer := Rpc(c.(nextId := Succ(c.nextId)), ListRequest(c.nextId, cursor)).1;
    if answer.Ok? && Get(answer.value, "tools").Some? && Get(answer.value, "tools").value.Arr? {
      ParsesIffNamed(Get(answer.value, "tools").value.items);
      NamelessIsTold(Get(answer.value, "tools").value.items);
    }
  }

  lemma {:induction false} NamelessIsTold(items: seq<Value>)
    ensures ParseTools(items).Err? ==> ParseTools(items).error == Protocol("tool missing 'name' field")
  {
    if items != [] { NamelessIsTold(items[1..]); }
  }

  /** After a page with a cursor the list goes on behind it, with that page's tools in front. */
  lemma ListPassesPage(c: Client, cursor: Option<string>, page: Page, tail: seq<Result<Value, Error>>)
    requires PageByKeys(page, c.nextId, false) && c.attempts !in c.faults
    requires c.incoming == Messages(page.noise) + [Ok(page.response)] + tail
    ensures var after := c.(nextId := Succ(c.nextId), attempts := c.attempts + 1,
                            sent := c.sent + [ListRequest(c.nextId, cursor)], buffer := c.buffer + page.noise,
                            incoming := tail);
      var more := List(after, Some(GetIn(page.response, "result", "nextCursor").value.s));
      List(c, cursor) == (more.0, Prepend(AllTools([page]), more.1))
  {
    PageAnswersIff(page, c.nextId);
    RpcTakesPage(c.(nextId := Succ(c.nextId)), ListRequest(c.nextId, cursor), page, tail);
    assert [page][1..] == [];
    var tools := PageTools(PageResult(page));
    assert AllTools([page]) == tools.value + [] == tools.value;
  }

  /** A page that parses yields its items in order, as the server sent them, with defaults for what it left out. */
  lemma {:induction false} PageKeepsItems(items: seq<Value>, i: nat)
    requires ParseTools(items).Ok? && i < |items|
    ensures |ParseTools(items).value| == |items|
    ensures var tool := ParseTools(items).value[i];
      && Get(items[i], "name") == Some(Str(tool.name))
      && tool.inputSchema == (if Get(items[i], "inputSchema").Some? then Get(items[i], "inputSchema").value
                              else Obj(map["type" := Str("object"), "properties" := Obj(map[])]))
      && (if AsStr(Get(items[i], "description")).Some? then Get(items[i], "description") == Some(Str(tool.description))
          else tool.description == "")
  {
    if |items| > 1 { PageKeepsItems(items[1..], if i == 0 then 0 else i - 1); }
  }

  /** A message decides a request only with an id: an error decides it whatever that id is, a result only with the right
      one. */
  lemma {:induction false} DecidedByIdOrError(msg: Value, id: U64)
    ensures React(msg, id).Buffer? <==>
      || Get(msg, "id").None?
      || (Get(msg, "error").None? && Get(msg, "id") != Some(Int(id)))
    ensures React(msg, id).Answer? <==>
      Get(msg, "id") == Some(Int(id)) && Get(msg, "error").None? && Get(msg, "result").Some?
    ensures React(msg, id).Answer? ==> Get(msg, "result") == Some(React(msg, id).result)
  {
  }

  /** The client object: counter, buffer and transport are updated in place. */
  class McpClient {
    var nextId: U64
    var buffer: seq<Value>
    var sent: seq<Request>
    var attempts: nat
    const faults: set<nat>
    var incoming: seq<Result<Value, Error>>

    ghost function View(): Client
      reads this
    {
      Client(nextId, buffer, sent, attempts, faults, incoming)
    }

    constructor (faults: set<nat>, incoming: seq<Result<Value, Error>>)
      ensures View() == Client(1, [], [], 0, faults, incoming)
    {
      nextId, buffer, sent, attempts := 1, [], [], 0;
      this.faults, this.incoming := faults, incoming;
    }

    method TakeId() returns (id: U64)
      modifies this`nextId
      ensures id == old(nextId) && nextId == Succ(id)
    {
      id := nextId;
      nextId := if nextId + 1 == U64_LIMIT then 0 else nextId + 1;
    }

    method RpcRaw(req: Request) returns (r: Result<Value, Error>)
      modifies this`buffer, this`sent, this`attempts, this`incoming
      ensures (View(), r) == Rpc(old(View()), req)
    {
      attempts := attempts + 1;
      if attempts - 1 in faults {
        return Err(Io);
      }
      sent := sent + [req];
      while true
        invariant attempts == old(attempts) + 1 && sent == old(sent) + [req]
        invariant Await(View(), req.id) == Await(old(View()).(attempts := attempts, sent := sent), req.id)
        decreases |incoming|
      {
        ghost var before := View();
        if incoming == [] {
          return Err(ServerGone);
        }
        var item := incoming[0];
        incoming := incoming[1..];
        if item.Err? {
          assert Await(before, req.id) == (View(), Err(item.error));
          return Err(item.error);
        }
        var msg := item.value;
        if !msg.Obj? || "id" !in msg.fields {
          buffer := buffer + [msg];
          continue;
        }
        if "error" in msg.fields {
          return Err(Protocol(StrOr(Get(msg.fields["error"], "message"), "unknown error")));
        }
        if AsU64(Some(msg.fields["id"])) == Some(req.id) {
          if "result" in msg.fields {
            return Ok(msg.fields["result"]);
          } else {
            return Err(Protocol("response missing 'result'"));
          }
        }
        buffer := buffer + [msg];
      }
    }

    method ListTools() returns (r: Result<seq<ToolInfo>, Error>)
      modifies this`nextId, this`buffer, this`sent, this`attempts, this`incoming
      ensures (View(), r) == List(old(View()), None)
    {
      var all: seq<ToolInfo> := [];
      var cursor: Option<string> := None;
      ghost var start := View();
      PrependNothing(List(start, None).1);
      while true
        invariant List(start, None).0 == List(View(), cursor).0
        invariant List(start, None).1 == Prepend(all, List(View(), cursor).1)
        invariant faults == start.faults
        decreases |incoming|
      {
        ghost var top := View();
        var id := TakeId();
        var answer := RpcRaw(ListRequest(id, cursor));
        if answer.Err? {
          return Err(answer.error);
        }
        ghost var asked := top.(nextId := Succ(id), attempts := top.attempts + 1,
          sent := top.sent + [ListRequest(id, cursor)]);
        assert (View(), answer) == Await(asked, id);
        AwaitConsumes(asked, id);
        var listed := AsArray(Get(answer.value, "tools"));
        if listed.None? {
          return Err(Protocol("tools/list: missing 'tools' array"));
        }
        var page := ParsePage(listed.value);
        if page.Err? {
          return Err(page.error);
        }
        ghost var followed := cursor;
        cursor := NextCursor(answer.value);
        PrependMore(all, page.value, List(View(), cursor).1);
        all := all + page.value;
        if cursor.None? {
          assert List(top, followed) == (View(), page);
          return Ok(all);
        }
      }
    }

    /** The loop over one page's array: the first tool without a name fails the whole list. */
    static method ParsePage(items: seq<Value>) returns (r: Result<seq<ToolInfo>, Error>)
      ensures r == ParseTools(items)
    {
      var tools: seq<ToolInfo> := [];
      PrependNothing(ParseTools(items));
      for i := 0 to |items|
        invariant ParseTools(items) == Prepend(tools, ParseTools(items[i..]))
      {
        var tool := ParseTool(items[i]);
        assert items[i..][1..] == items[i + 1..];
        if tool.Err? {
          return Err(tool.error);
        }
        PrependMore(tools, [tool.value], ParseTools(items[i + 1..]));
        tools := tools + [tool.value];
      }
      r := Ok(tools);
      assert tools + [] == tools;
    }

    method CallTool(name: string, arguments: Value) returns (r: Result<Value, Error>)
      modifies this`nextId, this`buffer, this`sent, this`attempts, this`incoming
      ensures (View(), r) == Rpc(old(View()).(nextId := Succ(old(nextId))), CallRequest(old(nextId), name, arguments))
      ensures old(attempts) !in faults ==>
        sent == old(sent) + [Request(old(nextId), "tools/call",
          Obj(map["name" := Str(name), "arguments" := arguments]))]
    {
      var id := TakeId();
      r := RpcRaw(CallRequest(id, name, arguments));
      if old(attempts) !in faults {
        AwaitKeepsRest(old(View()).(nextId := nextId, attempts := old(attempts) + 1,
                                    sent := old(sent) + [CallRequest(id, name, arguments)]), id);
      }
    }
  }

  function CallRequest(id: U64, name: string, arguments: Value): Request {
    Request(id, "tools/call", Obj(map["name" := Str(name), "arguments" := arguments]))
  }

  function Prepend<T>(front: seq<T>, r: Result<seq<T>, Error>): Result<seq<T>, Error> {
    if r.Err? then r else Ok(front + r.value)
  }

  lemma {:induction false} PrependNothing<T>(r: Result<seq<T>, Error>)
    ensures Prepend([], r) == r
  {
    if r.Ok? { assert [] + r.value == r.value; }
  }

  lemma {:induction false} PrependMore<T>(front: seq<T>, more: seq<T>, r: Result<seq<T>, Error>)
    ensures Prepend(front + more, r) == Prepend(front, Prepend(more, r))
  {
    if r.Ok? { assert front + more + r.value == front + (more + r.value); }
  }
}
