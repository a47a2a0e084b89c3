/** The mod's entry class `MinecraftDCLink`: it wires the freeze gate, the role manager and
    the settings to the server's events. Work the mod hands to its background executor (the
    registration check, the role lookup and the event and status posts) is returned as a
    `Task`; completing a task is a separate step. */
module Mod {
  import opened Wrappers
  import opened JavaLang
  import opened World
  import Throttle
  import Freeze
  import Roles
  import Http
  import Config

  const TICKS_PER_DAY: int := 24000

  /** Work queued on the executor. */
  datatype Task =
    | RegistrationCheck(check: Freeze.PendingCheck)
    | RoleLookup(id: PlayerId)
    | PlayerEvent(id: PlayerId, name: string, kind: string)
    | ServerStatus(day: Long, timeOfDay: Long)

  /** `dayTime / 24000L` and `dayTime % 24000L` with Java's truncating division. */
  function SplitDayTime(dayTime: Long): (r: (Long, Long))
    ensures r.0 * TICKS_PER_DAY + r.1 == dayTime
    ensures dayTime >= 0 ==> r.0 >= 0 && 0 <= r.1 < TICKS_PER_DAY
    ensures dayTime < 0 ==> r.0 <= 0 && -TICKS_PER_DAY < r.1 <= 0
  {
    var day := JDiv(dayTime, TICKS_PER_DAY);
    var time := JMod(dayTime, TICKS_PER_DAY);
    assert LONG_MIN <= day <= LONG_MAX;
    (day, time)
  }

  /** The player actions the mod blocks while a player is frozen. */
  datatype Interaction =
    | RightClickBlock | RightClickItem | LeftClickBlock | EntityInteract | EntityInteractSpecific
    | BlockBreak | BlockPlace

  /** What happens to a chat message. */
  datatype ChatOutcome =
    | Untouched
    | Rebroadcast(parts: seq<Roles.Styled>, broadcast: bool)

  /** The plain text of styled parts. */
  function PlainText(parts: seq<Roles.Styled>): string {
    if parts == [] then [] else parts[0].text + PlainText(parts[1..])
  }

  lemma PlainTextFour(a: Roles.Styled, b: Roles.Styled, c: Roles.Styled, d: Roles.Styled)
    ensures PlainText([a, b, c, d]) == a.text + b.text + c.text + d.text
  {
    assert [d][1..] == [];
    assert PlainText([d]) == d.text;
    assert [c, d][1..] == [d];
    assert PlainText([c, d]) == c.text + d.text;
    assert [b, c, d][1..] == [c, d];
    assert PlainText([b, c, d]) == b.text + (c.text + d.text);
    assert [a, b, c, d][1..] == [b, c, d];
  }

  /** The scoreboard names of the online players. */
  function Names(online: map<PlayerId, Player>): map<PlayerId, string> {
    map id | id in online :: online[id].name
  }

  class MinecraftDCLink {
    const freezeManager: Freeze.FreezeManager
    const roleManager: Roles.RoleManager
    const config: Config.FileConfig
    var hasServer: bool
    var lastStatusMillis: Long

    ghost predicate Valid()
      reads this, freezeManager, freezeManager.frozenPlayers.Values, roleManager.scoreboard
    {
      freezeManager.Valid() && roleManager.scoreboard.Valid() && freezeManager.hasUnfreezeHook &&
      lastStatusMillis >= 0
    }

    /** The freeze gate gets `roleManager::scheduleUpdate` as its unfreeze hook. */
    constructor ()
      ensures Valid() && !hasServer && lastStatusMillis == 0
      ensures freezeManager.Entries() == map[] && !freezeManager.hasServer
      ensures roleManager.roleCache == map[] && !roleManager.hasServer
      ensures config.Current() == Config.DEFAULTS
      ensures fresh(freezeManager) && fresh(roleManager) && fresh(roleManager.scoreboard) && fresh(config)
    {
      var scoreboard := new Roles.Scoreboard();
      roleManager := new Roles.RoleManager(scoreboard);
      freezeManager := new Freeze.FreezeManager(true);
      config := new Config.FileConfig();
      hasServer := false;
      lastStatusMillis := 0;
    }

    /** The API settings the client reads. */
    function Api(): Http.ApiConfig
      reads config
    {
      Http.ApiConfig(Some(config.apiBaseUrl), Some(config.apiKey), config.apiTimeoutSeconds)
    }

    /** `onServerStarted`: the server is set in the mod, the settings are loaded, and then the
        server is set in both managers. When `load` throws, the handler stops there: the
        managers never get the server, so no registration check or role lookup is ever queued. */
    method OnServerStarted(dirCreated: bool, file: Config.ConfigFile, writable: bool)
      returns (stored: Option<Config.Properties>, threw: bool)
      requires Valid()
      modifies this`hasServer, config, freezeManager`hasServer, roleManager`hasServer
      ensures Valid()
      ensures hasServer
      ensures threw <==> dirCreated && file.Malformed?
      ensures !threw ==> freezeManager.hasServer && roleManager.hasServer
      ensures threw ==> freezeManager.hasServer == old(freezeManager.hasServer) &&
                        roleManager.hasServer == old(roleManager.hasServer)
      ensures !dirCreated || file.Unreadable? || file.Malformed? ==>
        config.Current() == old(config.Current()) && stored == None
      ensures dirCreated && (file.Missing? || file.Present?) ==>
        var p := if file.Present? then file.props else map[];
        config.Current() == Config.Resolve(old(config.Current()), p) &&
        stored == (if writable then Some(Config.WriteBack(p, config.Current())) else None)
    {
      hasServer := true;
      stored, threw := config.Load(dirCreated, file, writable);
      if threw {
        return;
      }
      freezeManager.SetServer(true);
      roleManager.SetServer(true);
    }

    /** `onPlayerJoin`: the player is frozen at once; a registration check, a role lookup and a
        "join" event are queued. */
    method OnPlayerJoin(id: PlayerId, p: Player, now: Millis) returns (tasks: seq<Task>)
      requires Valid()
      modifies freezeManager`frozenPlayers
      ensures Valid()
      ensures freezeManager.Entries() == old(freezeManager.Entries())[id := Freeze.Frozen(p, now)]
      ensures freezeManager.IsFrozen(id)
      ensures tasks ==
        (if freezeManager.hasServer then [RegistrationCheck(Freeze.PendingCheck(id, true))] else []) +
        (if roleManager.hasServer then [RoleLookup(id)] else []) +
        [PlayerEvent(id, p.name, "join")]
    {
      var check := freezeManager.HandlePlayerJoin(id, p, now);
      var role := roleManager.ScheduleUpdate(id);
      tasks := (if check.Some? then [RegistrationCheck(check.value)] else []) +
               (if role.Some? then [RoleLookup(role.value)] else []) +
               [PlayerEvent(id, p.name, "join")];
    }

    /** `onPlayerQuit`: the player's freeze entry goes and a "leave" event is queued. */
    method OnPlayerQuit(id: PlayerId, name: string) returns (tasks: seq<Task>)
      requires Valid()
      modifies freezeManager`frozenPlayers
      ensures Valid()
      ensures freezeManager.Entries() == old(freezeManager.Entries()) - {id}
      ensures tasks == [PlayerEvent(id, name, "leave")]
    {
      freezeManager.HandlePlayerQuit(id);
      tasks := [PlayerEvent(id, name, "leave")];
    }

    /** `onPlayerTick`: the freeze gate's throttles with the configured intervals. */
    method OnPlayerTick(id: PlayerId, now: Millis) returns (tasks: seq<Task>, sent: seq<ChatMessage>)
      requires Valid()
      modifies freezeManager.frozenPlayers.Values
      ensures Valid()
      ensures id !in old(freezeManager.Entries()) ==>
        freezeManager.Entries() == old(freezeManager.Entries()) && tasks == [] && sent == []
      ensures id in old(freezeManager.Entries()) ==>
        var t := Freeze.TickEntry(old(freezeManager.Entries())[id], now, config.checkIntervalSeconds,
                                  config.messageIntervalSeconds);
        freezeManager.Entries() == old(freezeManager.Entries())[id := t.entry] &&
        tasks == (if t.check && freezeManager.hasServer then [RegistrationCheck(Freeze.PendingCheck(id, false))] else []) &&
        sent == (if t.message then [ChatMessage(config.instructionMessage, Red)] else [])
    {
      var pending;
      pending, sent := freezeManager.HandlePlayerTick(id, now, config.checkIntervalSeconds,
                                                      config.messageIntervalSeconds, config.instructionMessage);
      tasks := if pending.Some? then [RegistrationCheck(pending.value)] else [];
    }

    /** The end of a registration check: `reply` is what the bot answered; an unfrozen player
        gets a role lookup through the unfreeze hook. When `isRegistered` throws, the future
        completes exceptionally and the callback never runs: `outcome` is none and nothing
        changes, so the player stays as they were. */
    method CompleteRegistrationCheck(check: Freeze.PendingCheck, parseUri: string -> Http.UriVerdict,
                                     reply: Http.Response, online: map<PlayerId, Player>, now: Millis)
      returns (outcome: Option<Freeze.CheckOutcome>, sent: seq<ChatMessage>, tasks: seq<Task>)
      requires Valid()
      modifies freezeManager`frozenPlayers
      ensures Valid()
      ensures Http.IsRegistered(Api(), check.id, parseUri, reply).Threw? ==>
        freezeManager.Entries() == old(freezeManager.Entries()) && outcome == None && sent == [] && tasks == []
      ensures Http.IsRegistered(Api(), check.id, parseUri, reply).Returned? ==> outcome.Some?
      ensures check.id !in online && outcome.Some? ==>
        freezeManager.Entries() == old(freezeManager.Entries()) && outcome == Some(Freeze.Offline) && sent == []
      ensures check.id in online && Http.IsRegistered(Api(), check.id, parseUri, reply) == Http.Returned(true) ==>
        freezeManager.Entries() == old(freezeManager.Entries()) - {check.id} &&
        outcome == Some(Freeze.Unfrozen(true)) && sent == [ChatMessage(Freeze.UNFREEZE_TEXT, Green)]
      ensures check.id in online && Http.IsRegistered(Api(), check.id, parseUri, reply) == Http.Returned(false) ==>
        freezeManager.Entries() ==
          (if check.id in old(freezeManager.Entries()) then old(freezeManager.Entries())
           else old(freezeManager.Entries())[check.id := Freeze.Frozen(online[check.id], now)]) &&
        outcome == Some(Freeze.StillFrozen(check.immediateMessage)) &&
        sent == (if check.immediateMessage then [ChatMessage(config.instructionMessage, Red)] else [])
      ensures tasks == (if outcome == Some(Freeze.Unfrozen(true)) && roleManager.hasServer then [RoleLookup(check.id)] else [])
    {
      var answer := Http.IsRegistered(Api(), check.id, parseUri, reply);
      if answer.Threw? {
        return None, [], [];
      }
      var result;
      result, sent, tasks := ApplyCheckResult(check, answer.value, online, now);
      outcome := Some(result);
    }

    /** The registration check's answer applied to the freeze gate. */
    method ApplyCheckResult(check: Freeze.PendingCheck, registered: bool, online: map<PlayerId, Player>, now: Millis)
      returns (outcome: Freeze.CheckOutcome, sent: seq<ChatMessage>, tasks: seq<Task>)
      requires Valid()
      modifies freezeManager`frozenPlayers
      ensures Valid()
      ensures check.id !in online ==>
        freezeManager.Entries() == old(freezeManager.Entries()) && outcome.Offline? && sent == []
      ensures check.id in online && registered ==>
        freezeManager.Entries() == old(freezeManager.Entries()) - {check.id} && outcome == Freeze.Unfrozen(true) &&
        sent == [ChatMessage(Freeze.UNFREEZE_TEXT, Green)]
      ensures check.id in online && !registered ==>
        freezeManager.Entries() ==
          (if check.id in old(freezeManager.Entries()) then old(freezeManager.Entries())
           else old(freezeManager.Entries())[check.id := Freeze.Frozen(online[check.id], now)]) &&
        outcome == Freeze.StillFrozen(check.immediateMessage) &&
        sent == (if check.immediateMessage then [ChatMessage(config.instructionMessage, Red)] else [])
      ensures tasks == (if outcome.Unfrozen? && roleManager.hasServer then [RoleLookup(check.id)] else [])
    {
      outcome, sent := freezeManager.CompleteCheck(check, registered, online, now, config.instructionMessage);
      tasks := [];
      if outcome.Unfrozen? {
        var role := roleManager.ScheduleUpdate(check.id);
        if role.Some? {
          tasks := [RoleLookup(role.value)];
        }
      }
    }

    /** The end of a role lookup: the reply is parsed and applied on the server thread. When
        `getRoleInfo` throws, the executor's task ends there and `applyRole` never runs. */
    method CompleteRoleLookup(id: PlayerId, parseUri: string -> Http.UriVerdict, reply: Http.Response,
                              online: map<PlayerId, Player>)
      requires Valid()
      modifies roleManager`roleCache, roleManager.scoreboard
      ensures Valid()
      ensures Http.GetRoleInfo(Api(), id, parseUri, reply).Threw? || !roleManager.hasServer || id !in online ==>
        roleManager.roleCache == old(roleManager.roleCache) &&
        roleManager.scoreboard.teams == old(roleManager.scoreboard.teams) &&
        roleManager.scoreboard.teamOf == old(roleManager.scoreboard.teamOf)
      ensures Http.GetRoleInfo(Api(), id, parseUri, reply).Returned? && roleManager.hasServer && id in online ==>
        var info := Http.GetRoleInfo(Api(), id, parseUri, reply).value;
        roleManager.roleCache == (if info.None? then old(roleManager.roleCache) - {id}
                                  else old(roleManager.roleCache)[id := info.value])
    {
      var info := Http.GetRoleInfo(Api(), id, parseUri, reply);
      if info.Threw? {
        return;
      }
      roleManager.ApplyRole(id, info.value, Names(online));
    }

    /** The interaction, block-break and block-place handlers: the event is cancelled exactly
        when there is an acting player and that player is frozen. */
    function Canceled(kind: Interaction, actor: Option<PlayerId>): (c: bool)
      reads freezeManager, freezeManager.frozenPlayers.Values
      ensures c <==> actor.Some? && actor.value in freezeManager.Entries()
    {
      actor.Some? && freezeManager.IsFrozen(actor.value)
    }

    /** `onPlayerDamage`: a frozen player takes no damage; others are untouched. */
    function DamageTaken(victim: Option<PlayerId>, damage: real): (d: real)
      reads freezeManager, freezeManager.frozenPlayers.Values
      ensures victim.Some? && victim.value in freezeManager.Entries() ==> d == 0.0
      ensures !(victim.Some? && victim.value in freezeManager.Entries()) ==> d == damage
    {
      if victim.Some? && freezeManager.IsFrozen(victim.value) then 0.0 else damage
    }

    /** `onChatMessage`: a player with a role prefix has their message cancelled and
        rebroadcast as `<[role] name> text`, with the name in the role colour. */
    function OnChatMessage(id: PlayerId, username: string, rawText: string): (r: ChatOutcome)
      reads this, roleManager
      ensures r.Untouched? <==> roleManager.PrefixComponent(id).None?
      ensures r.Rebroadcast? ==>
        r.broadcast == hasServer && |r.parts| == 4 &&
        PlainText(r.parts) == "<" + "[" + roleManager.roleCache[id].roleName + "] " + username + "> " + rawText &&
        r.parts[2] == Roles.Styled(username, roleManager.NameStyle(id))
      ensures r.Rebroadcast? ==>
        r.parts == [Roles.Styled("<", Roles.EMPTY_STYLE), roleManager.PrefixComponent(id).value,
                    Roles.Styled(username, roleManager.NameStyle(id)), Roles.Styled("> " + rawText, Roles.EMPTY_STYLE)]
    {
      match roleManager.PrefixComponent(id)
      case None => Untouched
      case Some(prefix) =>
        var parts := [Roles.Styled("<", Roles.EMPTY_STYLE), prefix, Roles.Styled(username, roleManager.NameStyle(id)),
                      Roles.Styled("> " + rawText, Roles.EMPTY_STYLE)];
        PlainTextFour(parts[0], parts[1], parts[2], parts[3]);
        Rebroadcast(parts, hasServer)
    }

    /** `onServerTick`: with a server, a status post of the world's day and time of day is
        queued once per status interval. */
    method OnServerTick(now: Millis, dayTime: Long) returns (task: Option<Task>)
      requires Valid()
      modifies this`lastStatusMillis
      ensures Valid()
      ensures !hasServer ==> task == None && lastStatusMillis == old(lastStatusMillis)
      ensures hasServer ==>
        var due := now - old(lastStatusMillis) >= config.statusIntervalSeconds * 1000;
        (due ==> lastStatusMillis == now &&
                 task == Some(ServerStatus(SplitDayTime(dayTime).0, SplitDayTime(dayTime).1))) &&
        (!due ==> lastStatusMillis == old(lastStatusMillis) && task == None)
    {
      if !hasServer {
        return None;
      }
      var step := Throttle.Tick(lastStatusMillis, now, Throttle.IntervalMillis(config.statusIntervalSeconds));
      if !step.fired {
        return None;
      }
      lastStatusMillis := now;
      var split := SplitDayTime(dayTime);
      task := Some(ServerStatus(split.0, split.1));
    }
  }
}
