/**
 * `RetailAPI` (retail_api.py): a client that logs in for a bearer token and
 * posts retail records with it. The HTTP exchange is an input: what the
 * server answers, or which transport error occurs.
 */
module RetailApi {
  import opened PyText
  import opened Values

  /** A parsed JSON value as `response.json()` returns it; `JNull` is Python's None. */
  datatype Json =
    | JNull
    | JBool(b: bool)
    | JInt(i: int)
    | JFloat(f: real)
    | JStr(s: string)
    | JArr(items: seq<Json>)
    | JObj(fields: map<string, Json>)

  /** Python truthiness of a JSON value. */
  predicate JTruthy(j: Json) {
    match j
    case JNull => false
    case JBool(b) => b
    case JInt(i) => i != 0
    case JFloat(f) => f != 0.0
    case JStr(s) => s != ""
    case JArr(items) => items != []
    case JObj(fields) => fields != map[]
  }

  /** `v == 200` in Python: the int 200 or the float 200.0. */
  predicate Is200(j: Json) {
    j == JInt(200) || j == JFloat(200.0)
  }

  /** `d.get(key)` on a dict: None when the key is absent. */
  function Get(fields: map<string, Json>, key: string): Json {
    if key in fields then fields[key] else JNull
  }

  const LoginPath := "/token/grant"
  const UploadPath := "/dc/api/v1/collection/retail"
  const BearerPrefix := "Bearer "

  /**
   * What the login POST produces. `Envelope` is a body that parsed to a dict:
   * its `code` (None when absent) and `str(result.get('token'))`, which is
   * "None" when the token is absent.
   */
  datatype LoginBody = LoginUnparsable | LoginNotAnObject | Envelope(code: Json, tokenText: string)
  datatype LoginReply = LoginTimeout | LoginRequestError | LoginOtherError | LoginHttp(status: int, body: LoginBody)

  /** What the upload POST produces. */
  datatype UploadBody = UploadUnparsable | UploadParsed(json: Json)
  datatype UploadReply = UploadTransportError | UploadHttp(status: int, body: UploadBody)

  datatype Payload = Form(username: string, password: string) | JsonBody(records: seq<Record>)

  /** One POST: the URL, what is posted, and the Authorization header (None when not sent). */
  datatype Request = Request(url: string, payload: Payload, authorization: Option<string>)

  /** `login` returns True: HTTP 200 and an envelope whose code is 200. */
  predicate LoginAccepted(reply: LoginReply) {
    reply.LoginHttp? && reply.status == 200 && reply.body.Envelope? && Is200(reply.body.code)
  }

  /** The token an accepted login stores. */
  function GrantedToken(reply: LoginReply): (t: string)
    requires LoginAccepted(reply)
    ensures |t| >= |BearerPrefix| && t[..|BearerPrefix|] == BearerPrefix
    ensures t[|BearerPrefix|..] == reply.body.tokenText
  {
    BearerPrefix + reply.body.tokenText
  }

  /** The token after a login: replaced on acceptance, kept otherwise. */
  function TokenAfterLogin(held: Option<string>, reply: LoginReply): (t: Option<string>)
    ensures LoginAccepted(reply) ==> t == Some(GrantedToken(reply))
    ensures !LoginAccepted(reply) ==> t == held
  {
    if LoginAccepted(reply) then Some(GrantedToken(reply)) else held
  }

  /** `if not self.token`: an absent or empty token refuses the upload. */
  predicate HasToken(token: Option<string>) {
    token.Some? && token.value != ""
  }

  /** What `upload_retail_data` returns once the request is sent: the parsed body on HTTP 200, None otherwise. */
  function UploadResult(reply: UploadReply): (r: Json)
    ensures reply.UploadHttp? && reply.status == 200 && reply.body.UploadParsed? ==> r == reply.body.json
    ensures !(reply.UploadHttp? && reply.status == 200) ==> r == JNull
  {
    match reply
    case UploadTransportError => JNull
    case UploadHttp(status, body) =>
      if status != 200 then JNull
      else match body
        case UploadUnparsable => JNull
        case UploadParsed(j) => j
  }

  /**
   * `json.dumps` can write the value: a `datetime.date`, a `datetime.datetime`,
   * a `decimal.Decimal`, a `datetime.timedelta`, `bytes` or a `set` makes it
   * raise TypeError.
   */
  predicate JsonWritable(v: Value) {
    !(v.VDate? || v.VDateTime? || v.VDecimal? || v.VOpaque?)
  }

  /** `json=data` can be serialised: every value of every record is writable. */
  predicate JsonSerialisable(data: seq<Record>) {
    forall i, k :: 0 <= i < |data| && k in data[i] ==> JsonWritable(data[i][k])
  }

  /**
   * What `upload_retail_data` returns after the token check: `session.post`
   * serialises the body before anything is sent, so records it cannot
   * serialise raise inside the `try` and give None; otherwise the answer
   * decides.
   */
  function PostedResult(data: seq<Record>, reply: UploadReply): (r: Json)
    ensures !JsonSerialisable(data) ==> r == JNull
    ensures JsonSerialisable(data) ==> r == UploadResult(reply)
  {
    if JsonSerialisable(data) then UploadResult(reply) else JNull
  }

  /** A single value `json.dumps` cannot write makes the upload return None, whatever the server would answer. */
  lemma UnwritableValueFailsUpload(data: seq<Record>, i: nat, k: string, reply: UploadReply)
    requires i < |data| && k in data[i] && !JsonWritable(data[i][k])
    ensures PostedResult(data, reply) == JNull
  {
  }

  /** Upload does not look at the envelope: a 200 answer carrying an error code is returned as it is. */
  lemma UploadIgnoresEnvelopeCode(fields: map<string, Json>)
    requires "code" in fields && !Is200(fields["code"])
    ensures UploadResult(UploadHttp(200, UploadParsed(JObj(fields)))) == JObj(fields)
  {
  }

  /** A token obtained from any sequence of logins starts with "Bearer ". */
  lemma {:induction false} TokensAreBearer(replies: seq<LoginReply>)
    ensures var t := TokensAfter(None, replies);
            t.Some? ==> |t.value| >= |BearerPrefix| && t.value[..|BearerPrefix|] == BearerPrefix
  {
    if replies != [] {
      TokensAreBearer(replies[..|replies| - 1]);
    }
  }

  /** The token after a sequence of logins: the one granted last, or the starting one. */
  function TokensAfter(start: Option<string>, replies: seq<LoginReply>): Option<string> {
    if replies == [] then start else TokenAfterLogin(TokensAfter(start, replies[..|replies| - 1]), replies[|replies| - 1])
  }

  /** A failed login after a successful one keeps the earlier token. */
  lemma {:induction false} FailedLoginKeepsToken(start: Option<string>, replies: seq<LoginReply>, failed: LoginReply)
    requires !LoginAccepted(failed)
    ensures TokensAfter(start, replies + [failed]) == TokensAfter(start, replies)
  {
    assert (replies + [failed])[..|replies + [failed]| - 1] == replies;
  }

  /** Trailing slashes of the configured URL make no difference. */
  lemma {:induction false} TrailingSlashesIgnored(url: string, k: nat)
    ensures RStripChar(url + seq(k, _ => '/'), '/') == RStripChar(url, '/')
  {
    var longer := url + seq(k, _ => '/');
    if k > 0 {
      assert longer[|longer| - 1] == '/';
      assert longer[..|longer| - 1] == url + seq(k - 1, _ => '/');
      TrailingSlashesIgnored(url, k - 1);
    } else {
      assert longer == url;
    }
  }

  // ----- interpreting an upload result (the callers of upload_retail_data) -----

  /** `result and result.get("code") == 200`; a truthy non-dict has no `get` and raises AttributeError. */
  datatype Verdict = Accepted | Rejected | GetRaises

  function UploadVerdict(result: Json): (v: Verdict)
    ensures v == Accepted <==> result.JObj? && Is200(Get(result.fields, "code"))
    ensures v == GetRaises <==> JTruthy(result) && !result.JObj?
    ensures result == JNull ==> v == Rejected
  {
    if !JTruthy(result) then Rejected
    else if !result.JObj? then GetRaises
    else if Is200(Get(result.fields, "code")) then Accepted
    else Rejected
  }

  /** Why the loop over `result.get("content", [])` that reads `soureId`, `code` and `msg` raises. */
  datatype ContentFault = KeyMissing(key: string) | NotSubscriptable | NotIterable

  /** The fault one item raises, if any. */
  function ItemFault(item: Json): (f: Option<ContentFault>)
    ensures f.None? <==> item.JObj? && "soureId" in item.fields && "code" in item.fields && "msg" in item.fields
  {
    if !item.JObj? then Some(NotSubscriptable)
    else if "soureId" !in item.fields then Some(KeyMissing("soureId"))
    else if "code" !in item.fields then Some(KeyMissing("code"))
    else if "msg" !in item.fields then Some(KeyMissing("msg"))
    else None
  }

  /** The fault of the first faulty item of a list. */
  function FirstItemFault(items: seq<Json>): (f: Option<ContentFault>)
    ensures f.None? <==> forall i :: 0 <= i < |items| ==> ItemFault(items[i]).None?
  {
    if items == [] then None
    else if ItemFault(items[0]).Some? then ItemFault(items[0])
    else
      assert forall i :: 1 <= i < |items| ==> items[i] == items[1..][i - 1];
      FirstItemFault(items[1..])
  }

  /** The loop over the content of an accepted result: iterating a string or dict yields strings, which cannot be indexed by name. */
  function ContentFaultOf(result: map<string, Json>): (f: Option<ContentFault>)
    ensures f.None? <==> match Get(result, "content")
                         case JArr(items) => "content" !in result || forall i :: 0 <= i < |items| ==> ItemFault(items[i]).None?
                         case JStr(s) => s == ""
                         case JObj(m) => m == map[]
                         case JNull => "content" !in result
                         case _ => false
  {
    if "content" !in result then None
    else match result["content"]
      case JArr(items) => FirstItemFault(items)
      case JStr(s) => if s == "" then None else Some(NotSubscriptable)
      case JObj(m) => if m == map[] then None else Some(NotSubscriptable)
      case _ => Some(NotIterable)
  }

  /** `result.get("content", [])` */
  function ContentOf(result: map<string, Json>): Json {
    if "content" in result then result["content"] else JArr([])
  }

  /** The `login` / `upload_retail_data` state machine. */
  class RetailAPI {
    const baseUrl: string
    const uploadPath: string
    var token: Option<string>
    /** Every POST sent, in order. */
    var sent: seq<Request>

    /** A held token is always a bearer token. */
    predicate Valid()
      reads this
    {
      token.Some? ==> |token.value| >= |BearerPrefix| && token.value[..|BearerPrefix|] == BearerPrefix
    }

    constructor(url: string)
      ensures baseUrl == RStripChar(url, '/') && uploadPath == UploadPath
      ensures token == None && sent == [] && Valid()
    {
      baseUrl := RStripChar(url, '/');
      uploadPath := UploadPath;
      token := None;
      sent := [];
    }

    /** `login`: posts the credentials as a form; only a fully accepted answer replaces the token. */
    method Login(username: string, password: string, reply: LoginReply) returns (ok: bool)
      requires Valid()
      modifies this
      ensures Valid()
      ensures ok == LoginAccepted(reply)
      ensures token == TokenAfterLogin(old(token), reply)
      ensures sent == old(sent) + [Request(baseUrl + LoginPath, Form(username, password), None)]
    {
      var url := baseUrl + LoginPath;
      sent := sent + [Request(url, Form(username, password), None)];
      match reply {
        case LoginTimeout => return false;
        case LoginRequestError => return false;
        case LoginOtherError => return false;
        case LoginHttp(status, body) =>
          if status == 200 {
            match body {
              case LoginUnparsable => return false;
              case LoginNotAnObject => return false;
              case Envelope(code, tokenText) =>
                if Is200(code) {
                  token := Some(BearerPrefix + tokenText);
                  return true;
                } else {
                  return false;
                }
            }
          } else {
            return false;
          }
      }
    }

    /**
     * `upload_retail_data`: refuses without a token; records that cannot be
     * serialised make `post` raise before sending, which is caught; otherwise
     * posts the records with the token as Authorization.
     */
    method Upload(data: seq<Record>, reply: UploadReply) returns (result: Json)
      modifies this
      ensures token == old(token)
      ensures !HasToken(token) ==> result == JNull && sent == old(sent)
      ensures HasToken(token) ==> result == PostedResult(data, reply)
      ensures HasToken(token) && JsonSerialisable(data) ==> sent == old(sent) + [Request(baseUrl + uploadPath, JsonBody(data), token)]
      ensures !JsonSerialisable(data) ==> result == JNull && sent == old(sent)
    {
      if !HasToken(token) {
        return JNull;
      }
      if !JsonSerialisable(data) {
        return JNull;
      }
      var url := baseUrl + uploadPath;
      sent := sent + [Request(url, JsonBody(data), token)];
      match reply {
        case UploadTransportError => return JNull;
        case UploadHttp(status, body) =>
          if status == 200 {
            match body {
              case UploadUnparsable => return JNull;
              case UploadParsed(j) => return j;
            }
          } else {
            return JNull;
          }
      }
    }
  }
}
