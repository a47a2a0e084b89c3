/** The request building and reply reading of the mod's `RegistrationClient`. Sending is not
    modelled: each operation yields the request it would send (or none, or the exception that
    escapes while building it), and the reply of `HttpClient.send` is an input. The base URL,
    API key and request timeout are the configured settings. What `new URI(...)` and
    `HttpRequest.newBuilder(uri)` make of a string is a parameter `parseUri`. */
module Http {
  import opened Wrappers
  import opened Strings
  import opened Numerals
  import opened JavaLang
  import opened Uuids
  import opened JsonText

  datatype ApiConfig = ApiConfig(baseUrl: Option<string>, apiKey: Option<string>, timeoutSeconds: Int32)

  /** What `new URI(s)` and then `HttpRequest.newBuilder(uri)` make of a URI string: a
      `URISyntaxException`, which the client catches; a URI the builder refuses with an
      `IllegalArgumentException` because its scheme is not http or https (in any case) or it
      has no host; or a URI a request can be built for. */
  datatype UriVerdict = Malformed | Unsupported | Usable

  /** The end of a client call: the value it returned, or an `IllegalArgumentException` that
      escaped it. */
  datatype Call<T> = Returned(value: T) | Threw

  datatype Verb = Get | Post

  datatype Header = Header(name: string, value: string)

  datatype Request = Request(verb: Verb, uri: string, headers: seq<Header>, body: Option<string>)

  /** What `client.send` produced: a status and a body, or an `IOException` or
      `InterruptedException`. */
  datatype Response = Reply(status: int, body: Option<string>) | Failed

  /** The role a player holds on Discord and its RGB colour (0 for none). */
  datatype RoleInfo = RoleInfo(roleName: string, color: Int32)

  /** The base URL with one trailing '/' removed. */
  function NormalizeBaseUrl(b: string): (r: string)
    ensures EndsWith(b, "/") ==> r + "/" == b
    ensures !EndsWith(b, "/") ==> r == b
  {
    if EndsWith(b, "/") then b[..|b| - 1] else b
  }

  predicate Configured(cfg: ApiConfig) {
    cfg.baseUrl.Some? && !IsBlank(cfg.baseUrl.value)
  }

  /** The `X-API-Key` header, sent only for a present, non-blank key. */
  function ApiKeyHeader(apiKey: Option<string>): (h: seq<Header>)
    ensures |h| <= 1
    ensures h != [] <==> apiKey.Some? && !IsBlank(apiKey.value)
    ensures h != [] ==> h[0] == Header("X-API-Key", apiKey.value)
  {
    if apiKey.Some? && !IsBlank(apiKey.value) then [Header("X-API-Key", apiKey.value)] else []
  }

  /** The URI of an endpoint; none when the base URL is missing or blank or the URI does not
      parse, in which case the operation gives up before building a request. */
  function Target(cfg: ApiConfig, path: string, parseUri: string -> UriVerdict): (r: Option<string>)
    ensures r.Some? <==> Configured(cfg) && !parseUri(NormalizeBaseUrl(cfg.baseUrl.value) + path).Malformed?
    ensures r.Some? ==> r.value == NormalizeBaseUrl(cfg.baseUrl.value) + path
  {
    if !Configured(cfg) then None
    else
      var u := NormalizeBaseUrl(cfg.baseUrl.value) + path;
      if parseUri(u).Malformed? then None else Some(u)
  }

  /** A character the JDK's HTTP client allows in a header value: a space, a tab, or a
      visible character of ISO-8859-1. */
  predicate IsFieldChar(c: char) {
    c == ' ' || c == '\t' || ('!' <= c <= '~') || (0x80 <= c as int <= 0xFF)
  }

  predicate IsValidHeaderValue(v: string) {
    forall i | 0 <= i < |v| :: IsFieldChar(v[i])
  }

  /** The request builder throws `IllegalArgumentException` when `newBuilder` refuses the URI,
      when `timeout` is given a duration that is not positive, or when `header` is given a key
      it refuses. */
  predicate BuilderThrows(cfg: ApiConfig, u: UriVerdict) {
    u.Unsupported? || cfg.timeoutSeconds <= 0 ||
    (ApiKeyHeader(cfg.apiKey) != [] && !IsValidHeaderValue(cfg.apiKey.value))
  }

  /** A call whose request was built and sent. */
  predicate Sent(c: Call<Option<Request>>) {
    c.Returned? && c.value.Some?
  }

  const JSON_CONTENT: Header := Header("Content-Type", "application/json")

  /** The request to `path`: a GET, or a POST of `body` with the JSON content type. It is not
      built when there is no target, and building it throws as `BuilderThrows` says; the key
      header comes last. */
  function BuildRequest(cfg: ApiConfig, path: string, parseUri: string -> UriVerdict, body: Option<string>)
    : (r: Call<Option<Request>>)
    ensures r == Returned(None) <==> Target(cfg, path, parseUri).None?
    ensures r.Threw? <==> Target(cfg, path, parseUri).Some? && BuilderThrows(cfg, parseUri(Target(cfg, path, parseUri).value))
    ensures Sent(r) ==> r.value.value.uri == Target(cfg, path, parseUri).value && r.value.value.body == body
    ensures Sent(r) && body.None? ==> r.value.value.verb == Get && r.value.value.headers == ApiKeyHeader(cfg.apiKey)
    ensures Sent(r) && body.Some? ==> r.value.value.verb == Post && r.value.value.headers == [JSON_CONTENT] + ApiKeyHeader(cfg.apiKey)
  {
    match Target(cfg, path, parseUri)
    case None => Returned(None)
    case Some(u) =>
      if BuilderThrows(cfg, parseUri(u)) then Threw
      else if body.None? then Returned(Some(Request(Get, u, ApiKeyHeader(cfg.apiKey), None)))
      else Returned(Some(Request(Post, u, [JSON_CONTENT] + ApiKeyHeader(cfg.apiKey), body)))
  }

  // Registration check

  function RegistrationPath(id: Uuid): string {
    "/v1/registration/" + Canonical(id)
  }

  /** The body test: white space removed, the body must contain `"registered":true`. */
  predicate RegisteredBody(body: string) {
    Contains(Without(body, IsRegexSpace), "\"registered\":true")
  }

  /** `isRegistered`: it throws exactly when building the GET throws; otherwise it is true
      exactly when the request was sent and the reply was a 200 with a body that passes the
      body test, and every other failure reads as "not registered". */
  function IsRegistered(cfg: ApiConfig, id: Uuid, parseUri: string -> UriVerdict, reply: Response): (b: Call<bool>)
    ensures b.Threw? <==> BuildRequest(cfg, RegistrationPath(id), parseUri, None).Threw?
    ensures b.Returned? ==>
      (b.value <==> Sent(BuildRequest(cfg, RegistrationPath(id), parseUri, None)) && reply.Reply? &&
                    reply.status == 200 && reply.body.Some? && RegisteredBody(reply.body.value))
  {
    match BuildRequest(cfg, RegistrationPath(id), parseUri, None)
    case Threw => Threw
    case Returned(None) => Returned(false)
    case Returned(Some(_)) =>
      match reply
      case Failed => Returned(false)
      case Reply(status, body) =>
        if status != 200 then Returned(false)
        else match body
          case None => Returned(false)
          case Some(text) => Returned(RegisteredBody(text))
  }

  // JSON string escaping

  /** `escapeJson`: every backslash doubled, then every quote preceded by a backslash. */
  function EscapeJson(input: Option<string>): string {
    match input
    case None => ""
    case Some(s) => ReplaceAll(ReplaceAll(s, "\\", "\\\\"), "\"", "\\\"")
  }

  /** The escape of one character. */
  function EscapeChar(c: char): string {
    if c == '\\' then "\\\\" else if c == '"' then "\\\"" else [c]
  }

  /** Escaping character by character, the reference for `EscapeJson`. */
  function EscapeChars(s: string): string {
    if s == [] then [] else EscapeChar(s[0]) + EscapeChars(s[1..])
  }

  /** The two replace passes escape each character on its own: a backslash introduced by the
      first pass is not touched by the second. */
  lemma {:induction false} EscapeJsonPerChar(s: string)
    ensures EscapeJson(Some(s)) == EscapeChars(s)
    decreases |s|
  {
    if s != [] {
      var rest := ReplaceAll(s[1..], "\\", "\\\\");
      var head := if s[0] == '\\' then "\\\\" else [s[0]];
      ReplaceCharStep(s, '\\', "\\\\");
      ReplaceCharAppend(head, '"', "\\\"", rest);
      EscapeHead(s[0]);
      EscapeJsonPerChar(s[1..]);
    }
  }

  /** Replacing a one-character pattern, one character at a time. */
  lemma ReplaceCharStep(s: string, c: char, rep: string)
    requires s != []
    ensures ReplaceAll(s, [c], rep) == (if s[0] == c then rep else [s[0]]) + ReplaceAll(s[1..], [c], rep)
  {
    assert s[..1] == [s[0]];
  }

  /** The second pass applied to what the first pass made of one character. */
  lemma EscapeHead(c: char)
    ensures ReplaceAll(if c == '\\' then "\\\\" else [c], "\"", "\\\"") == EscapeChar(c)
  {
    if c == '\\' {
      ReplaceCharStep("\\\\", '"', "\\\"");
      ReplaceCharStep("\\", '"', "\\\"");
    } else {
      ReplaceCharStep([c], '"', "\\\"");
    }
  }

  /** Each backslash and each quote gains one character. */
  lemma {:induction false} EscapeJsonLength(s: string)
    ensures |EscapeJson(Some(s))| == |s| + Count(s, '\\') + Count(s, '"')
  {
    EscapeJsonPerChar(s);
    EscapeCharsLength(s);
  }

  lemma {:induction false} EscapeCharsLength(s: string)
    ensures |EscapeChars(s)| == |s| + Count(s, '\\') + Count(s, '"')
    decreases |s|
  {
    if s != [] {
      EscapeCharsLength(s[1..]);
    }
  }

  /** No control character (below U+0020), which JSON forbids raw in a string. */
  predicate NoControlChars(s: string) {
    forall i | 0 <= i < |s| :: s[i] >= ' '
  }

  /** An escaped string without control characters, closed by a quote, is read back by a JSON
      string reader as the original string, and the reader stops right after that closing
      quote. */
  lemma {:induction false} EscapeJsonReadBack(s: string, rest: string)
    requires NoControlChars(s)
    ensures ReadString(EscapeJson(Some(s)) + "\"" + rest) == Some((s, rest))
  {
    EscapeJsonPerChar(s);
    EscapeCharsReadBack(s, rest);
  }

  /** `escapeJson` leaves control characters raw, so a string holding one is not valid JSON
      once escaped, whatever follows it. */
  lemma {:induction false} EscapeJsonControlRejected(s: string, rest: string)
    requires !NoControlChars(s)
    ensures ReadString(EscapeJson(Some(s)) + "\"" + rest) == None
  {
    EscapeJsonPerChar(s);
    EscapeCharsControlRejected(s, rest);
  }

  lemma {:induction false} EscapeCharsControlRejected(s: string, rest: string)
    requires !NoControlChars(s)
    ensures ReadString(EscapeChars(s) + "\"" + rest) == None
    decreases |s|
  {
    var t := EscapeChars(s) + "\"" + rest;
    var tail := EscapeChars(s[1..]) + "\"" + rest;
    assert t == EscapeChar(s[0]) + tail;
    if s[0] >= ' ' {
      assert !NoControlChars(s[1..]) by {
        var i :| 0 <= i < |s| && s[i] < ' ';
        assert s[1..][i - 1] == s[i];
      }
      EscapeCharsControlRejected(s[1..], rest);
      if s[0] == '\\' || s[0] == '"' {
        assert t[2..] == tail;
      } else {
        assert t[1..] == tail;
      }
    }
  }

  lemma {:induction false} EscapeCharsReadBack(s: string, rest: string)
    requires NoControlChars(s)
    ensures ReadString(EscapeChars(s) + "\"" + rest) == Some((s, rest))
    decreases |s|
  {
    var t := EscapeChars(s) + "\"" + rest;
    if s == [] {
      assert t == "\"" + rest;
    } else {
      var tail := EscapeChars(s[1..]) + "\"" + rest;
      assert t == EscapeChar(s[0]) + tail;
      assert NoControlChars(s[1..]) by {
        forall i | 0 <= i < |s| - 1 ensures s[1..][i] >= ' ' { assert s[1..][i] == s[i + 1]; }
      }
      EscapeCharsReadBack(s[1..], rest);
      if s[0] == '\\' || s[0] == '"' {
        assert t[2..] == tail;
      } else {
        assert t[1..] == tail;
      }
      assert [s[0]] + s[1..] == s;
    }
  }

  // Event and status posts

  const EVENT_PREFIX: string := "{\"uuid\":\""
  const NAME_FIELD: string := "\",\"name\":\""
  const EVENT_FIELD: string := ",\"event\":\""

  /** `{"uuid":"<id>","name":"<escaped name>","event":"<type>"}`; the event type is not escaped. */
  function PlayerEventPayload(id: Uuid, name: Option<string>, event: string): (p: string)
    ensures |p| == |EVENT_PREFIX| + 36 + |NAME_FIELD| + |EscapeJson(name)| + 1 + |EVENT_FIELD| + |event| + 2
  {
    EVENT_PREFIX + Canonical(id) + NAME_FIELD + (EscapeJson(name) + "\"" + (EVENT_FIELD + event + "\"}"))
  }

  /** The name field of an event payload reads back as the player's name, whatever quotes and
      backslashes it holds, and is followed by the event field; a name with a control
      character makes the payload invalid JSON. */
  lemma PlayerEventNameReadBack(id: Uuid, name: string, event: string)
    ensures var p := PlayerEventPayload(id, Some(name), event);
      var k := |EVENT_PREFIX| + 36 + |NAME_FIELD|;
      p[..k] == EVENT_PREFIX + Canonical(id) + NAME_FIELD &&
      ReadString(p[k..]) == if NoControlChars(name) then Some((name, EVENT_FIELD + event + "\"}")) else None
  {
    var rest := EVENT_FIELD + event + "\"}";
    SplitAt(EVENT_PREFIX + Canonical(id) + NAME_FIELD, EscapeJson(Some(name)) + "\"" + rest);
    if NoControlChars(name) {
      EscapeJsonReadBack(name, rest);
    } else {
      EscapeJsonControlRejected(name, rest);
    }
  }

  lemma SplitAt(a: string, b: string)
    ensures (a + b)[..|a|] == a && (a + b)[|a|..] == b
  {
  }

  /** `sendPlayerEvent`: the POST of the event payload to `/v1/mc-event`. */
  function PlayerEventRequest(cfg: ApiConfig, id: Uuid, name: Option<string>, event: string,
                              parseUri: string -> UriVerdict): (r: Call<Option<Request>>)
    ensures r == Returned(None) <==> Target(cfg, "/v1/mc-event", parseUri).None?
    ensures r.Threw? <==> Target(cfg, "/v1/mc-event", parseUri).Some? &&
                          BuilderThrows(cfg, parseUri(Target(cfg, "/v1/mc-event", parseUri).value))
    ensures Sent(r) ==> r.value.value.verb == Post && r.value.value.body == Some(PlayerEventPayload(id, name, event))
    ensures Sent(r) ==> r.value.value.headers == [JSON_CONTENT] + ApiKeyHeader(cfg.apiKey)
  {
    BuildRequest(cfg, "/v1/mc-event", parseUri, Some(PlayerEventPayload(id, name, event)))
  }

  const DAY_FIELD: string := "{\"day\":"
  const TIME_FIELD: string := ",\"time\":"

  /** `{"day":<d>,"time":<t>}`. */
  function StatusPayload(day: Long, timeOfDay: Long): string {
    DAY_FIELD + (IntToString(day) + (TIME_FIELD + (IntToString(timeOfDay) + "}")))
  }

  /** Both numbers of a status payload read back unchanged, each in its field. */
  lemma StatusPayloadReadBack(day: Long, timeOfDay: Long)
    ensures StatusPayload(day, timeOfDay)[..|DAY_FIELD|] == DAY_FIELD
    ensures ReadInt(StatusPayload(day, timeOfDay)[|DAY_FIELD|..]) ==
      Some((day as int, TIME_FIELD + (IntToString(timeOfDay) + "}")))
    ensures ReadInt((TIME_FIELD + (IntToString(timeOfDay) + "}"))[|TIME_FIELD|..]) == Some((timeOfDay as int, "}"))
  {
    var q := TIME_FIELD + (IntToString(timeOfDay) + "}");
    SplitAt(DAY_FIELD, IntToString(day) + q);
    ReadIntToString(day, q);
    SplitAt(TIME_FIELD, IntToString(timeOfDay) + "}");
    ReadIntToString(timeOfDay, "}");
  }

  /** `sendServerStatus`: the POST of the status payload to `/v1/server-status`. */
  function StatusRequest(cfg: ApiConfig, day: Long, timeOfDay: Long, parseUri: string -> UriVerdict)
    : (r: Call<Option<Request>>)
    ensures r == Returned(None) <==> Target(cfg, "/v1/server-status", parseUri).None?
    ensures r.Threw? <==> Target(cfg, "/v1/server-status", parseUri).Some? &&
                          BuilderThrows(cfg, parseUri(Target(cfg, "/v1/server-status", parseUri).value))
    ensures Sent(r) ==> r.value.value.verb == Post && r.value.value.body == Some(StatusPayload(day, timeOfDay))
    ensures Sent(r) ==> r.value.value.headers == [JSON_CONTENT] + ApiKeyHeader(cfg.apiKey)
  {
    BuildRequest(cfg, "/v1/server-status", parseUri, Some(StatusPayload(day, timeOfDay)))
  }

  // Role lookup

  /** The line terminators `.` does not match. */
  predicate IsLineTerminator(c: char) {
    c == '\n' || c == '\r' || c as int == 0x85 || c as int == 0x2028 || c as int == 0x2029
  }

  /** `\s*` from `j`: the first index at or after `j` that is not white space. */
  function SkipSpaces(b: string, j: nat): (k: nat)
    requires j <= |b|
    ensures j <= k <= |b|
    ensures forall m | j <= m < k :: IsRegexSpace(b[m])
    ensures k < |b| ==> !IsRegexSpace(b[k])
    decreases |b| - j
  {
    if j < |b| && IsRegexSpace(b[j]) then SkipSpaces(b, j + 1) else j
  }

  /** `(.*?)"` from `k`: the first quote at or after `k`, unless a line terminator or the end of
      the text comes first. */
  function QuoteAfter(b: string, k: nat): (e: Option<nat>)
    requires k <= |b|
    ensures e.Some? ==> k <= e.value < |b| && b[e.value] == '"'
    ensures e.Some? ==> forall m | k <= m < e.value :: b[m] != '"' && !IsLineTerminator(b[m])
    decreases |b| - k
  {
    if k == |b| || IsLineTerminator(b[k]) then None
    else if b[k] == '"' then Some(k)
    else QuoteAfter(b, k + 1)
  }

  lemma {:induction false} QuoteAfterFirst(b: string, k: nat, e: nat)
    requires k <= e < |b| && b[e] == '"'
    requires forall m | k <= m < e :: b[m] != '"' && !IsLineTerminator(b[m])
    ensures QuoteAfter(b, k) == Some(e)
    decreases e - k
  {
    if k < e {
      QuoteAfterFirst(b, k + 1, e);
    }
  }

  /** The two patterns `"role"\s*:\s*"(.*?)"` and `"color"\s*:\s*(\d+)`. */
  datatype Key = RoleKey | ColorKey

  function KeyText(key: Key): string {
    match key
    case RoleKey => "\"role\""
    case ColorKey => "\"color\""
  }

  /** The group the pattern of `key` captures when matched at `i`, if it matches there. */
  function MatchAt(key: Key, b: string, i: nat): Option<string>
  {
    if !OccursAt(b, KeyText(key), i) then None
    else
      var j := SkipSpaces(b, i + |KeyText(key)|);
      if j == |b| || b[j] != ':' then None
      else
        var k := SkipSpaces(b, j + 1);
        match key
        case RoleKey =>
          if k == |b| || b[k] != '"' then None
          else (match QuoteAfter(b, k + 1)
                case None => None
                case Some(e) => Some(b[k + 1..e]))
        case ColorKey =>
          var n := DigitRun(b[k..]);
          if n == 0 then None else Some(b[k..][..n])
  }

  /** The leftmost index in `i..n` where `ok` holds. */
  function FirstWhere(ok: nat -> bool, i: nat, n: nat): (r: Option<nat>)
    ensures r.Some? ==> i <= r.value <= n && ok(r.value)
    ensures r.Some? ==> forall m | i <= m < r.value :: !ok(m)
    ensures r.None? ==> forall m | i <= m <= n :: !ok(m)
    decreases n + 1 - i
  {
    if i > n then None
    else if ok(i) then Some(i)
    else FirstWhere(ok, i + 1, n)
  }

  lemma {:induction false} FirstWhereAt(ok: nat -> bool, i: nat, n: nat, p: nat)
    requires i <= p <= n && ok(p)
    requires forall m | i <= m < p :: !ok(m)
    ensures FirstWhere(ok, i, n) == Some(p)
    decreases p - i
  {
    if i < p {
      FirstWhereAt(ok, i + 1, n, p);
    }
  }

  /** `Matcher.find()`: the leftmost start in `i..n` where the pattern matches. */
  function FirstMatch(key: Key, b: string, i: nat, n: nat): (r: Option<nat>)
    ensures r.Some? ==> i <= r.value <= n && MatchAt(key, b, r.value).Some?
    ensures r.Some? ==> forall m | i <= m < r.value :: MatchAt(key, b, m).None?
    ensures r.None? ==> forall m | i <= m <= n :: MatchAt(key, b, m).None?
  {
    var ok := (m: nat) => MatchAt(key, b, m).Some?;
    assert forall m: nat :: ok(m) == MatchAt(key, b, m).Some?;
    FirstWhere(ok, i, n)
  }

  /** The colour: the digits of the first `"color"` match as an `int`, or 0 when there is no
      match or the digits overflow an `int`. */
  function ColorOf(b: string): (c: Int32)
    ensures FirstMatch(ColorKey, b, 0, |b|).None? ==> c == 0
    ensures FirstMatch(ColorKey, b, 0, |b|).Some? ==>
      var d := MatchAt(ColorKey, b, FirstMatch(ColorKey, b, 0, |b|).value).value;
      AllDigits(d) && c == if DigitsValue(d) <= INT_MAX then DigitsValue(d) else 0
  {
    match FirstMatch(ColorKey, b, 0, |b|)
    case None => 0
    case Some(i) =>
      var d := MatchAt(ColorKey, b, i).value;
      assert d != [] && AllDigits(d);
      ParseIntDigits(d);
      ParseInt(d).GetOr(0)
  }

  /** `parseRoleInfo`: no body, no role match, or a blank role give none; otherwise the role
      the first match captures, with the colour of the first colour match. */
  function ParseRoleInfo(body: Option<string>): (r: Option<RoleInfo>)
    ensures body.None? ==> r.None?
    ensures body.Some? && (forall m | 0 <= m <= |body.value| :: MatchAt(RoleKey, body.value, m).None?) ==> r.None?
    ensures r.Some? ==> !IsBlank(r.value.roleName) && r.value.color == ColorOf(body.value)
    ensures r.Some? ==> exists m | 0 <= m <= |body.value| ::
      MatchAt(RoleKey, body.value, m) == Some(r.value.roleName) &&
      forall m' | 0 <= m' < m :: MatchAt(RoleKey, body.value, m').None?
    ensures body.Some? && FirstMatch(RoleKey, body.value, 0, |body.value|).Some? ==>
      var role := MatchAt(RoleKey, body.value, FirstMatch(RoleKey, body.value, 0, |body.value|).value).value;
      r == if IsBlank(role) then None else Some(RoleInfo(role, ColorOf(body.value)))
  {
    match body
    case None => None
    case Some(b) =>
      match FirstMatch(RoleKey, b, 0, |b|)
      case None => None
      case Some(i) =>
        var role := MatchAt(RoleKey, b, i).value;
        if IsBlank(role) then None else Some(RoleInfo(role, ColorOf(b)))
  }

  const COLOR_OPEN: string := "{\"color\":"
  const ROLE_FIELD: string := ",\"role\":\""

  /** The reply `{"color":<digits>,"role":"<name>"}`. */
  function RoleReply(digits: string, role: string): string {
    COLOR_OPEN + (digits + (ROLE_FIELD + (role + "\"}")))
  }

  /** A reply `{"color":<c>,"role":"<name>"}` is read as that role and colour, for any
      non-blank name on one line without quotes and any colour that fits an `int`. */
  lemma RoleReplyReadBack(role: string, c: nat)
    requires !IsBlank(role) && c <= INT_MAX
    requires forall m | 0 <= m < |role| :: role[m] != '"' && !IsLineTerminator(role[m])
    ensures ParseRoleInfo(Some(RoleReply(NatToString(c), role))) == Some(RoleInfo(role, c))
  {
    var d := NatToString(c);
    var b := RoleReply(d, role);
    ColorFieldFirst(d, ROLE_FIELD + (role + "\"}"));
    ParseIntDigits(d);
    assert ColorOf(b) == c;
    RoleFieldAfterColor(d, role);
  }

  /** In `{"color":<digits>,...`, the colour pattern first matches at 1 and captures the digits. */
  lemma ColorFieldFirst(d: string, tail: string)
    requires d != [] && AllDigits(d) && tail != [] && tail[0] == ','
    ensures var b := COLOR_OPEN + (d + tail);
      FirstMatch(ColorKey, b, 0, |b|) == Some(1) && MatchAt(ColorKey, b, 1) == Some(d)
  {
    var b := COLOR_OPEN + (d + tail);
    SplitAt(COLOR_OPEN, d + tail);
    SplitAt(d, tail);
    assert b[1..9] == COLOR_OPEN[1..];
    ColorMatchesAt(b, 1, d);
    NoMatchAt(ColorKey, b, 0);
    FirstMatchAt(ColorKey, b, 0, |b|, 1);
  }

  /** `"color":<digits>` at `p`, followed by a non-digit, is a match capturing the digits. */
  lemma ColorMatchesAt(b: string, p: nat, d: string)
    requires d != [] && AllDigits(d)
    requires p + 8 + |d| < |b| && !IsDigit(b[p + 8 + |d|])
    requires b[p..p + 8] == "\"color\":" && b[p + 8..p + 8 + |d|] == d
    ensures MatchAt(ColorKey, b, p) == Some(d)
  {
    assert b[p..p + 7] == b[p..p + 8][..7];
    assert OccursAt(b, KeyText(ColorKey), p);
    assert b[p + 7] == b[p..p + 8][7] == ':';
    assert SkipSpaces(b, p + 7) == p + 7;
    assert b[p + 8] == d[0] && IsDigit(d[0]);
    assert SkipSpaces(b, p + 8) == p + 8;
    var rest := b[p + 8 + |d|..];
    assert b[p + 8..] == d + rest;
    DigitRunAppend(d, rest);
    assert (d + rest)[..|d|] == d;
  }

  /** No pattern matches where there is no opening quote. */
  lemma NoMatchAt(key: Key, b: string, m: nat)
    requires m < |b| && b[m] != '"'
    ensures MatchAt(key, b, m).None?
  {
    if m + |KeyText(key)| <= |b| {
      assert b[m..m + |KeyText(key)|][0] == b[m];
    }
  }

  /** In `{"color":<digits>,"role":"<name>"}`, the role pattern first matches right after the
      comma and captures the name. */
  lemma RoleFieldAfterColor(d: string, role: string)
    requires AllDigits(d)
    requires forall m | 0 <= m < |role| :: role[m] != '"' && !IsLineTerminator(role[m])
    ensures var b := RoleReply(d, role);
      FirstMatch(RoleKey, b, 0, |b|) == Some(10 + |d|) && MatchAt(RoleKey, b, 10 + |d|) == Some(role)
  {
    var b := RoleReply(d, role);
    var p := 10 + |d|;
    RoleReplyLayout(d, role);
    RoleMatchesAt(b, p, role);
    NoRoleMatchInColor(b, d);
    FirstMatchAt(RoleKey, b, 0, |b|, p);
  }

  /** The role pattern matches nowhere in a leading `{"color":<digits>,`. */
  lemma NoRoleMatchInColor(b: string, d: string)
    requires AllDigits(d) && 10 + |d| < |b|
    requires b[..9] == COLOR_OPEN && b[9..9 + |d|] == d && b[9 + |d|] == ','
    ensures forall m | 0 <= m < 10 + |d| :: MatchAt(RoleKey, b, m).None?
  {
    forall m | 0 <= m < 9
      ensures MatchAt(RoleKey, b, m).None?
    {
      assert b[m] == COLOR_OPEN[m];
      if m == 1 || m == 7 {
        assert b[m + 1] == COLOR_OPEN[m + 1];
        NoRoleMatchAt(b, m);
      } else {
        NoMatchAt(RoleKey, b, m);
      }
    }
    forall m | 9 <= m < 9 + |d|
      ensures MatchAt(RoleKey, b, m).None?
    {
      assert b[m] == d[m - 9];
      NoMatchAt(RoleKey, b, m);
    }
    NoMatchAt(RoleKey, b, 9 + |d|);
  }

  /** Where each part of a role reply sits. */
  lemma RoleReplyLayout(d: string, role: string)
    ensures var b := RoleReply(d, role);
      |b| == 12 + |d| + 8 + |role| &&
      b[..9] == COLOR_OPEN && b[9..9 + |d|] == d && b[9 + |d|] == ',' &&
      b[10 + |d|..18 + |d| + |role|] == "\"role\":\"" + role && b[18 + |d| + |role|] == '"'
  {
    var rest := ROLE_FIELD + (role + "\"}");
    SplitAt(COLOR_OPEN, d + rest);
    SplitAt(d, rest);
    SplitAt(ROLE_FIELD, role + "\"}");
    var b := RoleReply(d, role);
    assert b[9 + |d|..] == rest;
    assert b[10 + |d|..] == rest[1..];
    assert rest[1..] == "\"role\":\"" + (role + "\"}");
  }

  lemma NoRoleMatchAt(b: string, m: nat)
    requires m + 1 < |b| && (b[m] != '"' || b[m + 1] != 'r')
    ensures MatchAt(RoleKey, b, m).None?
  {
    if m + 6 <= |b| {
      assert b[m..m + 6][0] == b[m] && b[m..m + 6][1] == b[m + 1];
    }
  }

  /** `"role":"<name>"` at `p` is a match capturing the name. */
  lemma RoleMatchesAt(b: string, p: nat, role: string)
    requires forall m | 0 <= m < |role| :: role[m] != '"' && !IsLineTerminator(role[m])
    requires p + 9 + |role| <= |b|
    requires b[p..p + 8 + |role|] == "\"role\":\"" + role && b[p + 8 + |role|] == '"'
    ensures MatchAt(RoleKey, b, p) == Some(role)
  {
    var w := b[p..p + 8 + |role|];
    assert w[..6] == "\"role\"";
    assert b[p..p + 6] == w[..6];
    assert b[p + 6] == w[6] == ':';
    assert b[p + 7] == w[7] == '"';
    assert b[p + 8..p + 8 + |role|] == w[8..] == role;
    QuoteAfterFirst(b, p + 8, p + 8 + |role|);
  }

  lemma FirstMatchAt(key: Key, b: string, i: nat, n: nat, p: nat)
    requires i <= p <= n && MatchAt(key, b, p).Some?
    requires forall m | i <= m < p :: MatchAt(key, b, m).None?
    ensures FirstMatch(key, b, i, n) == Some(p)
  {
    var ok := (m: nat) => MatchAt(key, b, m).Some?;
    assert forall m: nat :: ok(m) == MatchAt(key, b, m).Some?;
    FirstWhereAt(ok, i, n, p);
  }

  function RolePath(id: Uuid): string {
    "/v1/role/" + Canonical(id)
  }

  /** `getRoleInfo`: it throws exactly when building the GET throws; otherwise the parsed role
      of a 200 reply to the request sent, and none in every other case. */
  function GetRoleInfo(cfg: ApiConfig, id: Uuid, parseUri: string -> UriVerdict, reply: Response)
    : (r: Call<Option<RoleInfo>>)
    ensures r.Threw? <==> BuildRequest(cfg, RolePath(id), parseUri, None).Threw?
    ensures BuildRequest(cfg, RolePath(id), parseUri, None) == Returned(None) ==> r == Returned(None)
    ensures reply.Failed? || (reply.Reply? && reply.status != 200) ==> r.Threw? || r == Returned(None)
    ensures Sent(BuildRequest(cfg, RolePath(id), parseUri, None)) && reply.Reply? && reply.status == 200 ==>
      r == Returned(ParseRoleInfo(reply.body))
  {
    match BuildRequest(cfg, RolePath(id), parseUri, None)
    case Threw => Threw
    case Returned(None) => Returned(None)
    case Returned(Some(_)) =>
      match reply
      case Failed => Returned(None)
      case Reply(status, body) => if status != 200 then Returned(None) else Returned(ParseRoleInfo(body))
  }
}
