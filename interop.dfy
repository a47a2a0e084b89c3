/** How the mod's registration check and the bot's registration endpoint fit together: the
    request the mod sends is answered by the bot, and the mod reads the bot's JSON back. */
module Interop {
  import opened Wrappers
  import opened Strings
  import opened JavaLang
  import opened Uuids
  import opened PyUuid
  import Http
  import Bot

  const REGISTERED_TRUE: string := "\"registered\":true"

  /** The white space an HTTP field value may carry around it (section 5.5 of RFC 9110). */
  predicate IsSpaceOrTab(c: char) {
    c == ' ' || c == '\t'
  }

  /** The `X-API-Key` header as the bot reads it: the value the mod sent, if it sent one, with
      the spaces and tabs around it removed by aiohttp's header parser. */
  function ProvidedKey(modKey: Option<string>): (k: Option<string>)
    ensures k.Some? <==> Http.ApiKeyHeader(modKey) != []
    ensures k.Some? ==> k.value == Strip(modKey.value, IsSpaceOrTab)
  {
    var h := Http.ApiKeyHeader(modKey);
    if h == [] then None else Some(Strip(h[0].value, IsSpaceOrTab))
  }

  /** With the same key configured on both sides, the bot lets the mod in exactly when the key
      is empty, or is not blank and neither begins nor ends with a space or a tab: a key of
      white space only is never sent by the mod, and the spaces and tabs around a key are lost
      on the way, but the bot still demands them. */
  lemma SharedKeyAccepted(key: string)
    ensures (key == "" || ProvidedKey(Some(key)).GetOr("") == key) <==>
      (key == "" || (!IsBlank(key) && !IsSpaceOrTab(key[0]) && !IsSpaceOrTab(key[|key| - 1])))
  {
    if key != "" && !IsBlank(key) {
      if !IsSpaceOrTab(key[0]) && !IsSpaceOrTab(key[|key| - 1]) {
        StripNoop(key, IsSpaceOrTab);
      }
    }
  }

  /** Removing white space around one space between two space-free pieces. */
  lemma {:induction false} WithoutSpaceBetween(a: string, b: string, c: string)
    requires forall i | 0 <= i < |a| :: !IsRegexSpace(a[i])
    requires forall i | 0 <= i < |b| :: !IsRegexSpace(b[i])
    ensures Without(a + " " + b + c, IsRegexSpace) == a + b + Without(c, IsRegexSpace)
  {
    var x := a + " ";
    var y := x + b;
    WithoutNoop(a, IsRegexSpace);
    WithoutNoop(b, IsRegexSpace);
    assert Without(" ", IsRegexSpace) == [] by {
      assert IsRegexSpace(" "[0]);
      assert " "[1..] == [];
    }
    WithoutAppend(a, " ", IsRegexSpace);
    assert Without(x, IsRegexSpace) == a;
    WithoutAppend(x, b, IsRegexSpace);
    assert Without(y, IsRegexSpace) == a + b;
    WithoutAppend(y, c, IsRegexSpace);
  }

  /** The digits after `"discord_id": ` in a "registered" answer. */
  function DiscordTail(d: int): string {
    Bot.DISCORD_ID_FIELD + Numerals.IntToString(d) + "}"
  }

  /** The mod's white space removal closes up the space after `"registered":`. */
  lemma RegisteredAnswerSpaces(d: int)
    ensures Without(Bot.Dumps(Bot.Registered(d)), IsRegexSpace) ==
      Bot.OPEN_REGISTERED + "true" + Without(DiscordTail(d), IsRegexSpace)
  {
    OpenHasNoSpace();
    assert Bot.Dumps(Bot.Registered(d)) == Bot.OPEN_REGISTERED + " " + "true" + DiscordTail(d);
    WithoutSpaceBetween(Bot.OPEN_REGISTERED, "true", DiscordTail(d));
  }

  lemma OpenHasNoSpace()
    ensures forall i | 0 <= i < |Bot.OPEN_REGISTERED| :: !IsRegexSpace(Bot.OPEN_REGISTERED[i])
  {
  }

  lemma RegisteredHeadOccurs(rest: string)
    ensures OccursAt(Bot.OPEN_REGISTERED + "true" + rest, REGISTERED_TRUE, 1)
  {
    assert OccursAt(Bot.OPEN_REGISTERED + "true", REGISTERED_TRUE, 1);
    OccursAtAppend(Bot.OPEN_REGISTERED + "true", rest, REGISTERED_TRUE, 1);
  }

  /** The body of a "registered" answer passes the mod's body test. */
  lemma RegisteredAnswerRead(d: int)
    ensures Http.RegisteredBody(Bot.Dumps(Bot.Registered(d)))
  {
    RegisteredAnswerSpaces(d);
    RegisteredHeadOccurs(Without(DiscordTail(d), IsRegexSpace));
  }

  /** A string with one 't' never contains `"registered":true`, which has two. */
  lemma OneTNotRegistered(a: string, b: string)
    requires forall i | 0 <= i < |a| :: a[i] != 't'
    requires forall i | 0 <= i < |b| :: b[i] != 't'
    ensures !Contains(a + "t" + b, REGISTERED_TRUE)
  {
    var w := a + "t" + b;
    OneT(a, b);
    RegisteredTrueTwoTs();
    if Contains(w, REGISTERED_TRUE) {
      var i :| 0 <= i <= |w| - |REGISTERED_TRUE| && OccursAt(w, REGISTERED_TRUE, i);
      OccursCount(w, REGISTERED_TRUE, i, 't');
    }
  }

  lemma OneT(a: string, b: string)
    requires forall i | 0 <= i < |a| :: a[i] != 't'
    requires forall i | 0 <= i < |b| :: b[i] != 't'
    ensures Count(a + "t" + b, 't') == 1
  {
    CountAbsent(a, 't');
    CountAbsent(b, 't');
    CountAppend(a, "t", 't');
    CountAppend(a + "t", b, 't');
  }

  const QUOTE_REGIS: string := "\"regis"

  lemma RegisteredTrueTwoTs()
    ensures Count(REGISTERED_TRUE, 't') == 2
  {
    assert REGISTERED_TRUE == QUOTE_REGIS + "t" + ERED + "t" + "rue";
    TwoTs(QUOTE_REGIS, ERED, "rue");
  }

  lemma TwoTs(a: string, b: string, c: string)
    requires forall i | 0 <= i < |a| :: a[i] != 't'
    requires forall i | 0 <= i < |b| :: b[i] != 't'
    requires forall i | 0 <= i < |c| :: c[i] != 't'
    ensures Count(a + "t" + b + "t" + c, 't') == 2
  {
    OneT(a, b);
    CountAbsent(c, 't');
    CountAppend(a + "t" + b, "t", 't');
    CountAppend(a + "t" + b + "t", c, 't');
  }

  const REGIS: string := "{\"regis"
  const ERED: string := "ered\":"

  /** The body of a "not registered" answer fails the mod's body test. */
  lemma NotRegisteredAnswerRead(j: Bot.BotJson)
    requires j.NotRegistered?
    ensures !Http.RegisteredBody(Bot.Dumps(j))
  {
    NotRegisteredSpaceless();
    OneTNotRegistered(REGIS, ERED + "false" + "}");
  }

  /** The "not registered" answer without its white space. */
  lemma NotRegisteredSpaceless()
    ensures Without(Bot.OPEN_REGISTERED + " " + "false" + "}", IsRegexSpace) == REGIS + "t" + (ERED + "false" + "}")
  {
    WithoutSpaceBetween(Bot.OPEN_REGISTERED, "false", "}");
    WithoutNoop("}", IsRegexSpace);
    assert Bot.OPEN_REGISTERED == REGIS + "t" + ERED;
  }

  /** The mod asks the bot about player `id` with its configured key; the bot answers from
      `rows` with its own key `botKey`. Once the request is sent, the mod admits the player
      exactly when the bot accepted the key and the player's row has a truthy Discord id. */
  lemma ModReadsBotAnswer(cfg: Http.ApiConfig, id: Uuid, parseUri: string -> Http.UriVerdict, botKey: string,
                          rows: seq<Bot.UserRow>)
    requires Http.Sent(Http.BuildRequest(cfg, Http.RegistrationPath(id), parseUri, None))
    ensures var r := Bot.HandleRegistration(botKey, ProvidedKey(cfg.apiKey), Canonical(id), rows);
      Http.IsRegistered(cfg, id, parseUri, Http.Reply(r.status, Some(Bot.Dumps(r.json)))) ==
        Http.Returned((botKey == "" || ProvidedKey(cfg.apiKey).GetOr("") == botKey) &&
                      Bot.Lookup(rows, Canonical(id)).Registered?)
  {
    CanonicalAccepted(id);
    var r := Bot.HandleRegistration(botKey, ProvidedKey(cfg.apiKey), Canonical(id), rows);
    var b := Http.IsRegistered(cfg, id, parseUri, Http.Reply(r.status, Some(Bot.Dumps(r.json))));
    assert b.Returned? by { assert !Http.BuildRequest(cfg, Http.RegistrationPath(id), parseUri, None).Threw?; }
    assert b.value <==> r.status == 200 && Http.RegisteredBody(Bot.Dumps(r.json));
    match r.json
    case Registered(d) => RegisteredAnswerRead(d);
    case NotRegistered => NotRegisteredAnswerRead(r.json);
    case Refused(_) =>
  }

  /** A player whose account `/register` appended to the table is admitted by the mod, provided
      the keys agree and the Discord id is not 0. */
  lemma LinkedPlayerAdmitted(cfg: Http.ApiConfig, id: Uuid, parseUri: string -> Http.UriVerdict, botKey: string,
                             rows: seq<Bot.UserRow>, userId: int, name: string)
    requires Http.Sent(Http.BuildRequest(cfg, Http.RegistrationPath(id), parseUri, None))
    requires botKey == "" || ProvidedKey(cfg.apiKey).GetOr("") == botKey
    requires userId != 0
    requires Bot.TableConstraints(rows + [Bot.UserRow(Canonical(id), Some(userId), name)])
    ensures var t := rows + [Bot.UserRow(Canonical(id), Some(userId), name)];
      var r := Bot.HandleRegistration(botKey, ProvidedKey(cfg.apiKey), Canonical(id), t);
      Http.IsRegistered(cfg, id, parseUri, Http.Reply(r.status, Some(Bot.Dumps(r.json)))) == Http.Returned(true)
  {
    var t := rows + [Bot.UserRow(Canonical(id), Some(userId), name)];
    Bot.LookupAppended(rows, Bot.UserRow(Canonical(id), Some(userId), name));
    ModReadsBotAnswer(cfg, id, parseUri, botKey, t);
  }
}
