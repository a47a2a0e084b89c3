/** The mod's `RoleManager`: it caches each online player's Discord role, renders the chat
    prefix and name colour from that cache, and puts the player on a scoreboard team named
    after the role whose prefix shows the role in the player list. */
module Roles {
  import opened Wrappers
  import opened Strings
  import opened JavaLang
  import opened World
  import Http

  const TEAM_PREFIX: string := "dclink_"

  /** A text style; only the colour is modelled. `Some(c)` stands for
      `withColor(TextColor.fromRgb(c))`: the colour shown is `c & 0xFFFFFF`, so a non-zero `c`
      whose low 24 bits are 0 still renders black. */
  datatype Style = Style(color: Option<Int32>)

  const EMPTY_STYLE: Style := Style(None)

  datatype Styled = Styled(text: string, style: Style)

  function PrefixText(roleName: string): string {
    "[" + roleName + "] "
  }

  /** The style of a role colour: coloured only when the colour is not 0. */
  function RoleStyle(color: Int32): (s: Style)
    ensures s.color.Some? <==> color != 0
    ensures s.color.Some? ==> s.color.value == color
  {
    if color != 0 then Style(Some(color)) else EMPTY_STYLE
  }

  /** `TEAM_PREFIX + Integer.toHexString(roleName.hashCode())`. */
  function TeamName(roleName: string): (t: string)
    ensures StartsWith(t, TEAM_PREFIX) && |t| > |TEAM_PREFIX|
  {
    TEAM_PREFIX + ToHexString(HashCode(roleName))
  }

  /** Two roles share a team exactly when their names have the same `hashCode`. */
  lemma TeamNameShared(a: string, b: string)
    ensures TeamName(a) == TeamName(b) <==> HashCode(a) == HashCode(b)
  {
    if TeamName(a) == TeamName(b) {
      assert TeamName(a)[|TEAM_PREFIX|..] == ToHexString(HashCode(a));
      assert TeamName(b)[|TEAM_PREFIX|..] == ToHexString(HashCode(b));
      ToHexStringInjective(HashCode(a), HashCode(b));
    }
  }

  /** Distinct role names can share a team: "Aa" and "BB" both hash to 2112. */
  lemma TeamNameCollision()
    ensures "Aa" != "BB" && TeamName("Aa") == TeamName("BB")
  {
    HashCodeTwoAscii('A', 'a');
    HashCodeTwoAscii('B', 'B');
  }

  /** The hash of two ASCII characters, without wrap-around. */
  lemma HashCodeTwoAscii(a: char, b: char)
    requires a as int < 0x80 && b as int < 0x80
    ensures HashCode([a, b]) == 31 * (a as int) + b as int
  {
    var s := [a, b];
    assert s[..1] == [a];
    assert [a][..0] == [];
    assert Utf16Units(a) == [a as int];
    assert Utf16Units(b) == [b as int];
    assert Utf16([a]) == [a as int];
    assert Utf16(s) == [a as int, b as int];
    var u := [a as int, b as int];
    assert u[..1] == [a as int];
    assert HashUnits([a as int]) == a as int;
  }

  /** The server scoreboard: its teams with their player prefix, and which team each player
      (by scoreboard name) is on. */
  class Scoreboard {
    var teams: map<string, Styled>
    var teamOf: map<string, string>

    ghost predicate Valid()
      reads this
    {
      forall n | n in teamOf :: teamOf[n] in teams
    }

    constructor ()
      ensures Valid() && teams == map[] && teamOf == map[]
    {
      teams := map[];
      teamOf := map[];
    }

    method RemovePlayerFromTeam(name: string)
      requires Valid()
      modifies this`teamOf
      ensures Valid() && teamOf == old(teamOf) - {name}
    {
      teamOf := teamOf - {name};
    }

    /** A new team starts with an empty prefix. */
    method AddPlayerTeam(team: string)
      requires Valid() && team !in teams
      modifies this`teams
      ensures Valid() && teams == old(teams)[team := Styled("", EMPTY_STYLE)]
    {
      teams := teams[team := Styled("", EMPTY_STYLE)];
    }

    method SetPlayerPrefix(team: string, prefix: Styled)
      requires Valid() && team in teams
      modifies this`teams
      ensures Valid() && teams == old(teams)[team := prefix]
    {
      teams := teams[team := prefix];
    }

    /** The player leaves their team when it is a role team. */
    method LeaveRoleTeamOf(name: string)
      requires Valid()
      modifies this`teamOf
      ensures Valid() && teamOf == LeaveRoleTeam(old(teamOf), name)
    {
      if name in teamOf && StartsWith(teamOf[name], TEAM_PREFIX) {
        RemovePlayerFromTeam(name);
      }
    }

    /** The team is created when missing, given the prefix, and the player joins it. */
    method JoinTeamWithPrefix(name: string, team: string, prefix: Styled)
      requires Valid()
      modifies this
      ensures Valid()
      ensures teams == old(teams)[team := prefix] && teamOf == old(teamOf)[name := team]
    {
      if team !in teams {
        AddPlayerTeam(team);
      }
      SetPlayerPrefix(team, prefix);
      AddPlayerToTeam(name, team);
    }

    /** Joining a team leaves whatever team the player was on. */
    method AddPlayerToTeam(name: string, team: string)
      requires Valid() && team in teams
      modifies this`teamOf
      ensures Valid() && teamOf == old(teamOf)[name := team]
    {
      teamOf := teamOf[name := team];
    }
  }

  /** A player leaves the team they are on when it is one of the role teams; other
      memberships are kept. */
  function LeaveRoleTeam(teamOf: map<string, string>, n: string): (r: map<string, string>)
    ensures n in r ==> n in teamOf && r[n] == teamOf[n] && !StartsWith(r[n], TEAM_PREFIX)
    ensures n in teamOf && !StartsWith(teamOf[n], TEAM_PREFIX) ==> n in r
    ensures forall m | m != n :: (m in r <==> m in teamOf) && (m in r ==> r[m] == teamOf[m])
  {
    if n in teamOf && StartsWith(teamOf[n], TEAM_PREFIX) then teamOf - {n} else teamOf
  }

  class RoleManager {
    var roleCache: map<PlayerId, Http.RoleInfo>
    var hasServer: bool
    const scoreboard: Scoreboard

    constructor (scoreboard: Scoreboard)
      ensures roleCache == map[] && !hasServer && this.scoreboard == scoreboard
    {
      roleCache := map[];
      hasServer := false;
      this.scoreboard := scoreboard;
    }

    method SetServer(present: bool)
      modifies this`hasServer
      ensures hasServer == present
    {
      hasServer := present;
    }

    /** `getPrefixComponent`: `[role] `, coloured when the colour is not 0; none without a
        cached, non-blank role. */
    function PrefixComponent(id: PlayerId): (r: Option<Styled>)
      reads this
      ensures r.None? <==> id !in roleCache || IsBlank(roleCache[id].roleName)
      ensures r.Some? ==> r.value.text == "[" + roleCache[id].roleName + "] "
      ensures r.Some? ==> (r.value.style.color.Some? <==> roleCache[id].color != 0)
      ensures r.Some? && r.value.style.color.Some? ==> r.value.style.color.value == roleCache[id].color
    {
      if id !in roleCache || IsBlank(roleCache[id].roleName) then None
      else Some(Styled(PrefixText(roleCache[id].roleName), RoleStyle(roleCache[id].color)))
    }

    /** `getNameStyle`: the role colour, or the empty style. */
    function NameStyle(id: PlayerId): (s: Style)
      reads this
      ensures s.color.Some? <==> id in roleCache && roleCache[id].color != 0
      ensures s.color.Some? ==> s.color.value == roleCache[id].color
    {
      if id !in roleCache then EMPTY_STYLE else RoleStyle(roleCache[id].color)
    }

    /** `scheduleUpdate`: a role lookup for the player is queued only while there is a server.
        Its completion is `ApplyRole` with the lookup's result. */
    function ScheduleUpdate(id: PlayerId): (pending: Option<PlayerId>)
      reads this
      ensures pending.Some? <==> hasServer
      ensures pending.Some? ==> pending.value == id
    {
      if hasServer then Some(id) else None
    }

    /** `applyRole`, run on the server thread; `online` maps each online player to their
        scoreboard name. */
    method ApplyRole(id: PlayerId, info: Option<Http.RoleInfo>, online: map<PlayerId, string>)
      requires scoreboard.Valid()
      modifies this`roleCache, scoreboard
      ensures scoreboard.Valid()
      ensures !hasServer || id !in online ==>
        roleCache == old(roleCache) && scoreboard.teams == old(scoreboard.teams) &&
        scoreboard.teamOf == old(scoreboard.teamOf)
      ensures hasServer && id in online && info.None? ==>
        roleCache == old(roleCache) - {id} && scoreboard.teams == old(scoreboard.teams) &&
        scoreboard.teamOf == LeaveRoleTeam(old(scoreboard.teamOf), online[id])
      ensures hasServer && id in online && info.Some? ==>
        roleCache == old(roleCache)[id := info.value]
      ensures hasServer && id in online && info.Some? ==>
        scoreboard.teams == old(scoreboard.teams)[TeamName(info.value.roleName) :=
          Styled(PrefixText(info.value.roleName), RoleStyle(info.value.color))]
      ensures hasServer && id in online && info.Some? ==>
        scoreboard.teamOf == LeaveRoleTeam(old(scoreboard.teamOf), online[id])[online[id] := TeamName(info.value.roleName)]
      ensures hasServer && id in online && info.Some? && !IsBlank(info.value.roleName) ==>
        PrefixComponent(id) == Some(scoreboard.teams[TeamName(info.value.roleName)])
    {
      if !hasServer || id !in online {
        return;
      }
      var name := online[id];
      scoreboard.LeaveRoleTeamOf(name);
      if info.None? {
        roleCache := roleCache - {id};
        return;
      }
      var roleInfo := info.value;
      roleCache := roleCache[id := roleInfo];
      var teamName := TeamName(roleInfo.roleName);
      var prefix := Styled(PrefixText(roleInfo.roleName), RoleStyle(roleInfo.color));
      scoreboard.JoinTeamWithPrefix(name, teamName, prefix);
    }
  }
}
