/** The Discord bot's side of the account link: the HTTP endpoint the mod asks whether a
    Minecraft account is linked, the `/register` command that links a Discord user to a
    Minecraft account (at most 20 accounts, each Discord user and each Minecraft account at
    most once), the `/checklink` command, and the Mojang name lookup. The `users` table is a
    sequence of rows; the Mojang, Discord and database round trips are inputs. */
module Bot {
  import opened Wrappers
  import opened Numerals
  import opened Uuids
  import opened PyUuid
  import Hex

  const MAX_USERS: nat := 20

  /** A row of `users`; `registration_date` is not modelled. */
  datatype UserRow = UserRow(minecraftUuid: string, discordId: Option<int>, currentUsername: string)

  /** The table's declared constraints: `minecraft_uuid` is the primary key and at most 36
      characters, `discord_id` is unique among non-null values, `current_username` is at most
      255 characters. */
  predicate TableConstraints(rows: seq<UserRow>) {
    (forall i, j | 0 <= i < j < |rows| :: rows[i].minecraftUuid != rows[j].minecraftUuid) &&
    (forall i, j | 0 <= i < j < |rows| && rows[i].discordId.Some? :: rows[i].discordId != rows[j].discordId) &&
    (forall i | 0 <= i < |rows| :: |rows[i].minecraftUuid| <= 36 && |rows[i].currentUsername| <= 255)
  }

  /** Python truthiness of a `discord_id` column: not `None` and not 0. */
  predicate Truthy(d: Option<int>) {
    d.Some? && d.value != 0
  }

  /** `fetchrow(... WHERE minecraft_uuid = $1)`: the first row with that key. */
  function RowByUuid(rows: seq<UserRow>, key: string): (r: Option<nat>)
    ensures r.Some? ==> r.value < |rows| && rows[r.value].minecraftUuid == key
    ensures r.Some? ==> forall i | 0 <= i < r.value :: rows[i].minecraftUuid != key
    ensures r.None? ==> forall i | 0 <= i < |rows| :: rows[i].minecraftUuid != key
  {
    if rows == [] then None
    else if rows[0].minecraftUuid == key then Some(0)
    else match RowByUuid(rows[1..], key)
      case None => None
      case Some(i) => Some(i + 1)
  }

  /** `fetchrow(... WHERE discord_id = $1)`: the first row with that Discord id. */
  function RowByDiscord(rows: seq<UserRow>, userId: int): (r: Option<nat>)
    ensures r.Some? ==> r.value < |rows| && rows[r.value].discordId == Some(userId)
    ensures r.Some? ==> forall i | 0 <= i < r.value :: rows[i].discordId != Some(userId)
    ensures r.None? ==> forall i | 0 <= i < |rows| :: rows[i].discordId != Some(userId)
  {
    if rows == [] then None
    else if rows[0].discordId == Some(userId) then Some(0)
    else match RowByDiscord(rows[1..], userId)
      case None => None
      case Some(i) => Some(i + 1)
  }

  // The registration endpoint

  /** The JSON objects the endpoint answers with. */
  datatype BotJson = Registered(discordId: int) | NotRegistered | Refused(error: string)

  datatype JsonReply = JsonReply(status: int, json: BotJson)

  /** The opening of every answer: the `registered` key comes first. */
  const OPEN_REGISTERED: string := "{\"registered\":"
  const DISCORD_ID_FIELD: string := ", \"discord_id\": "
  const ERROR_FIELD: string := ", \"error\": \""

  /** `json.dumps` of each answer, with its default ", " and ": " separators. */
  function Dumps(j: BotJson): string {
    match j
    case Registered(d) => OPEN_REGISTERED + " " + "true" + (DISCORD_ID_FIELD + IntToString(d) + "}")
    case NotRegistered => OPEN_REGISTERED + " " + "false" + "}"
    case Refused(e) => OPEN_REGISTERED + " " + "false" + (ERROR_FIELD + e + "\"}")
  }

  /** The lookup step: registered with the row's Discord id when the row exists and its
      `discord_id` is truthy. */
  function Lookup(rows: seq<UserRow>, key: string): (j: BotJson)
    ensures j.Registered? ==> exists i | 0 <= i < |rows| ::
      rows[i].minecraftUuid == key && rows[i].discordId == Some(j.discordId) && j.discordId != 0
    ensures j.Registered? || j.NotRegistered?
  {
    match RowByUuid(rows, key)
    case None => NotRegistered
    case Some(i) => if Truthy(rows[i].discordId) then Registered(rows[i].discordId.value) else NotRegistered
  }

  /** In a table that keeps its constraints, the endpoint says "registered" exactly when a row
      for the key has a truthy Discord id. */
  lemma LookupRegisteredIff(rows: seq<UserRow>, key: string)
    requires TableConstraints(rows)
    ensures Lookup(rows, key).Registered? <==>
      exists i | 0 <= i < |rows| :: rows[i].minecraftUuid == key && Truthy(rows[i].discordId)
  {
    if exists i | 0 <= i < |rows| :: rows[i].minecraftUuid == key && Truthy(rows[i].discordId) {
      var i :| 0 <= i < |rows| && rows[i].minecraftUuid == key && Truthy(rows[i].discordId);
      var k := RowByUuid(rows, key).value;
      assert rows[k].minecraftUuid == rows[i].minecraftUuid;
    }
  }

  /** `handle_registration`: the API key check comes first (an empty configured key disables
      it), then the UUID check, then the lookup by the path segment as given. */
  function HandleRegistration(apiKey: string, providedKey: Option<string>, segment: string,
                              rows: seq<UserRow>): (r: JsonReply)
    ensures apiKey != "" && providedKey.GetOr("") != apiKey ==> r == JsonReply(401, Refused("unauthorized"))
    ensures (apiKey == "" || providedKey.GetOr("") == apiKey) && UuidFromHex(segment).None? ==>
      r == JsonReply(400, Refused("invalid_uuid"))
    ensures (apiKey == "" || providedKey.GetOr("") == apiKey) && UuidFromHex(segment).Some? ==>
      r == JsonReply(200, Lookup(rows, segment))
    ensures r.json.Registered? ==> r.status == 200
  {
    if apiKey != "" && providedKey.GetOr("") != apiKey then JsonReply(401, Refused("unauthorized"))
    else if UuidFromHex(segment).None? then JsonReply(400, Refused("invalid_uuid"))
    else JsonReply(200, Lookup(rows, segment))
  }

  // The Mojang lookup

  /** Mojang's profile reply: the status and the `id` field when it is a string. */
  datatype MojangReply = MojangReply(status: int, id: Option<string>)

  datatype Resolution = NotFound | InvalidFormat | Resolved(value: Uuid)

  /** `resolve_uuid`: no profile, no id, or an id not 32 characters long is "not found"; an id
      `uuid.UUID` rejects raises `ValueError`; otherwise the result is the UUID, returned as
      its canonical text. */
  function ResolveUuid(reply: MojangReply): (r: Resolution)
    ensures r.NotFound? <==> reply.status != 200 || reply.id.None? || |reply.id.value| != 32
    ensures r.InvalidFormat? <==> !r.NotFound? && UuidFromHex(reply.id.value).None?
    ensures r.Resolved? ==> UuidFromHex(reply.id.value) == Some(r.value)
  {
    if reply.status != 200 || reply.id.None? || |reply.id.value| != 32 then NotFound
    else match UuidFromHex(reply.id.value)
      case None => InvalidFormat
      case Some(v) => Resolved(v)
  }

  /** A 32-digit hex id from Mojang becomes the hyphenated lowercase form of the same digits. */
  lemma ResolveHexId(id: string)
    requires |id| == 32 && Hex.AllHex(id)
    ensures ResolveUuid(MojangReply(200, Some(id))).Resolved?
    ensures Canonical(ResolveUuid(MojangReply(200, Some(id))).value) == Hyphenate(Hex.Lower(id))
  {
    HexIdAccepted(id);
    var v: Uuid := Hex.HexValue(id);
    assert ResolveUuid(MojangReply(200, Some(id))) == Resolved(v);
    Hex.HexDigitsOfValue(id);
    assert Digits32(v) == Hex.Lower(id);
  }

  /** A 32-character id of letters and digits that is not all hex digits (and does not start
      with "0x") is reported as an invalid UUID. */
  lemma ResolveNonHexId(id: string, k: nat)
    requires |id| == 32 && forall i | 0 <= i < 32 :: IsAsciiAlphanumeric(id[i])
    requires !(id[0] == '0' && (id[1] == 'x' || id[1] == 'X'))
    requires k < 32 && !Hex.IsHexDigit(id[k])
    ensures ResolveUuid(MojangReply(200, Some(id))) == InvalidFormat
  {
    NonHexRejected(id, k);
  }

  // The users table and /register

  /** `INSERT ... ON CONFLICT (minecraft_uuid) DO UPDATE`: the row replaces the one with its
      key, or is appended. */
  function UpsertRows(rows: seq<UserRow>, row: UserRow): (r: seq<UserRow>)
    ensures RowByUuid(rows, row.minecraftUuid).None? ==> r == rows + [row]
    ensures RowByUuid(rows, row.minecraftUuid).Some? ==>
      r == rows[RowByUuid(rows, row.minecraftUuid).value := row]
  {
    if rows == [] then [row]
    else if rows[0].minecraftUuid == row.minecraftUuid then [row] + rows[1..]
    else [rows[0]] + UpsertRows(rows[1..], row)
  }

  /** Text PostgreSQL can hold: no U+0000 character. */
  predicate NoNul(s: string) {
    forall i | 0 <= i < |s| :: s[i] != '\0'
  }

  /** Assigning text to a `VARCHAR(n)` column: refused when the text holds U+0000; text longer
      than `n` characters is refused unless all its excess characters are spaces, and then it is
      stored cut to `n` characters. */
  function VarcharAssign(s: string, n: nat): (r: Option<string>)
    ensures r.Some? <==> NoNul(s) && (|s| <= n || forall i | n <= i < |s| :: s[i] == ' ')
    ensures r.Some? ==> |r.value| == (if |s| <= n then |s| else n) && r.value <= s
  {
    if !NoNul(s) then None
    else if |s| <= n then Some(s)
    else if forall i | n <= i < |s| :: s[i] == ' ' then Some(s[..n])
    else None
  }

  /** The row the database stores for an insert of `row`, or none when a column refuses its
      value. */
  function StoredRow(row: UserRow): (r: Option<UserRow>)
    ensures r.Some? <==> VarcharAssign(row.minecraftUuid, 36).Some? && VarcharAssign(row.currentUsername, 255).Some?
    ensures r.Some? ==>
      r.value.discordId == row.discordId &&
      r.value.minecraftUuid == VarcharAssign(row.minecraftUuid, 36).value &&
      r.value.currentUsername == VarcharAssign(row.currentUsername, 255).value
  {
    match (VarcharAssign(row.minecraftUuid, 36), VarcharAssign(row.currentUsername, 255))
    case (Some(key), Some(name)) => Some(UserRow(key, row.discordId, name))
    case _ => None
  }

  /** A canonical UUID text is stored as it is in `minecraft_uuid`. */
  lemma CanonicalStored(v: Uuid)
    ensures VarcharAssign(Canonical(v), 36) == Some(Canonical(v))
  {
    var c := Canonical(v);
    assert forall i | 0 <= i < |c| :: c[i] != '\0' by {
      forall i | 0 <= i < |c| ensures c[i] != '\0' {
        assert IsHyphenPosition(i) ==> c[i] == '-';
      }
    }
  }

  /** The replies of `/register`. */
  datatype LinkReply =
    | NameNotFound
    | InvalidUuid
    | NoDatabase
    | Full
    | AlreadyRegistered
    | Linked(minecraftName: string)
    | RegistrationFailed

  function LinkText(r: LinkReply): string {
    match r
    case NameNotFound => "Could not find that Minecraft name. Double-check spelling."
    case InvalidUuid => "Invalid UUID format. Please provide a valid minecraft UUID."
    case NoDatabase => "Error connecting to DB."
    case Full => "Registration is full. Maximum of " + NatToString(MAX_USERS) + " users have already been registered."
    case AlreadyRegistered => "Either your Discord account or this Minecraft account are already registered."
    case Linked(name) => "Successfully linked `" + name + "`! You can now join the server."
    case RegistrationFailed => "Registration failed: database error"
  }

  /** The `users` table behind the connection pool. */
  class UsersTable {
    var rows: seq<UserRow>

    ghost predicate Valid()
      reads this
    {
      TableConstraints(rows)
    }

    constructor ()
      ensures Valid() && rows == []
    {
      rows := [];
    }

    /** `SELECT 1 FROM users WHERE discord_id = $1 OR minecraft_uuid = $2`. */
    function AnyOf(userId: int, key: string): (b: bool)
      reads this
      ensures b <==> exists i | 0 <= i < |rows| :: rows[i].discordId == Some(userId) || rows[i].minecraftUuid == key
    {
      RowByDiscord(rows, userId).Some? || RowByUuid(rows, key).Some?
    }

    /** The upsert of `row` as the database stores it; the database refuses it (and the table
        stays as it was) when a column refuses its value or the result would break a
        constraint. */
    method Upsert(row: UserRow) returns (ok: bool)
      requires Valid()
      modifies this
      ensures Valid()
      ensures ok <==> StoredRow(row).Some? && TableConstraints(UpsertRows(old(rows), StoredRow(row).value))
      ensures ok ==> rows == UpsertRows(old(rows), StoredRow(row).value)
      ensures !ok ==> rows == old(rows)
    {
      match StoredRow(row)
      case None =>
        ok := false;
      case Some(stored) =>
        var next := UpsertRows(rows, stored);
        ok := TableConstraints(next);
        if ok {
          rows := next;
        }
    }
  }

  /** `/register <minecraft_name>` by Discord user `userId`; `table` is null when the bot has no
      connection pool. The nickname change after a successful link is not modelled. */
  method LinkMinecraft(table: UsersTable?, minecraftName: string, userId: int, mojang: MojangReply)
    returns (reply: LinkReply)
    requires table != null ==> table.Valid()
    modifies table
    ensures table != null ==> table.Valid()
    ensures ResolveUuid(mojang).NotFound? ==> reply == NameNotFound
    ensures ResolveUuid(mojang).InvalidFormat? ==> reply == InvalidUuid
    ensures ResolveUuid(mojang).Resolved? && table == null ==> reply == NoDatabase
    ensures ResolveUuid(mojang).Resolved? && table != null ==>
      var key := Canonical(ResolveUuid(mojang).value);
      var row := UserRow(key, Some(userId), minecraftName);
      (|old(table.rows)| >= MAX_USERS ==> reply == Full) &&
      (|old(table.rows)| < MAX_USERS && RowByDiscord(old(table.rows), userId).Some? ==> reply == AlreadyRegistered) &&
      (|old(table.rows)| < MAX_USERS && RowByUuid(old(table.rows), key).Some? ==> reply == AlreadyRegistered) &&
      (reply.Linked? ==>
         VarcharAssign(minecraftName, 255).Some? &&
         table.rows == old(table.rows) + [UserRow(key, Some(userId), VarcharAssign(minecraftName, 255).value)])
    ensures ResolveUuid(mojang).Resolved? && table != null && |old(table.rows)| < MAX_USERS &&
            RowByDiscord(old(table.rows), userId).None? &&
            RowByUuid(old(table.rows), Canonical(ResolveUuid(mojang).value)).None? ==>
      reply == (if VarcharAssign(minecraftName, 255).Some? then Linked(minecraftName) else RegistrationFailed)
    ensures table != null && !reply.Linked? ==> table.rows == old(table.rows)
    ensures reply.Linked? ==> reply.minecraftName == minecraftName
    ensures table != null && |old(table.rows)| <= MAX_USERS ==> |table.rows| <= MAX_USERS
  {
    match ResolveUuid(mojang)
    case NotFound => return NameNotFound;
    case InvalidFormat => return InvalidUuid;
    case Resolved(v) =>
      // `uuid.UUID(str(u))` gives `u` back, so the key stored is the canonical text.
      CanonicalAccepted(v);
      var parsed := UuidFromHex(Canonical(v)).value;
      var key := Canonical(parsed);
      if table == null {
        return NoDatabase;
      }
      if |table.rows| >= MAX_USERS {
        return Full;
      }
      if table.AnyOf(userId, key) {
        return AlreadyRegistered;
      }
      var row := UserRow(key, Some(userId), minecraftName);
      assert RowByUuid(table.rows, key).None?;
      CanonicalStored(parsed);
      if StoredRow(row).Some? {
        AppendFreshRow(table.rows, StoredRow(row).value);
      }
      var ok := table.Upsert(row);
      if ok {
        reply := Linked(minecraftName);
      } else {
        reply := RegistrationFailed;
      }
  }

  // /checklink

  datatype CheckReply = DatabaseError | LinkedTo(minecraftUuid: string) | NotLinked

  /** `/checklink` by Discord user `userId`. */
  function CheckLink(table: UsersTable?, userId: int): (r: CheckReply)
    reads table
    ensures table == null <==> r.DatabaseError?
    ensures table != null ==> (r.LinkedTo? <==> exists i | 0 <= i < |table.rows| :: table.rows[i].discordId == Some(userId))
    ensures r.LinkedTo? ==> exists i | 0 <= i < |table.rows| ::
      table.rows[i].discordId == Some(userId) && table.rows[i].minecraftUuid == r.minecraftUuid
  {
    if table == null then DatabaseError
    else match RowByDiscord(table.rows, userId)
      case None => NotLinked
      case Some(i) => LinkedTo(table.rows[i].minecraftUuid)
  }

  // Properties of a successful link

  /** After a row is appended to a table that still keeps its constraints, the endpoint finds
      it by its key. */
  lemma {:induction false} LookupAppended(rows: seq<UserRow>, row: UserRow)
    requires TableConstraints(rows + [row]) && Truthy(row.discordId)
    ensures Lookup(rows + [row], row.minecraftUuid) == Registered(row.discordId.value)
  {
    var t := rows + [row];
    forall i | 0 <= i < |rows|
      ensures t[i].minecraftUuid != row.minecraftUuid
    {
      assert t[|rows|] == row;
    }
    assert t[|rows|] == row;
    assert RowByUuid(t, row.minecraftUuid) == Some(|rows|);
  }

  /** After a row is appended to a table that still keeps its constraints, `/checklink` by its
      Discord user reports its Minecraft account. */
  lemma CheckLinkAppended(rows: seq<UserRow>, row: UserRow, userId: int)
    requires TableConstraints(rows + [row]) && row.discordId == Some(userId)
    ensures RowByDiscord(rows + [row], userId) == Some(|rows|)
  {
    var t := rows + [row];
    forall i | 0 <= i < |rows|
      ensures t[i].discordId != Some(userId)
    {
      assert t[|rows|] == row;
    }
    assert t[|rows|] == row;
    assert RowByDiscord(t, userId) == Some(|rows|);
  }

  /** A row whose key and Discord id are both new keeps the constraints exactly when its
      columns fit their bounds. */
  lemma AppendFreshRow(rows: seq<UserRow>, row: UserRow)
    requires TableConstraints(rows)
    requires RowByUuid(rows, row.minecraftUuid).None?
    requires row.discordId.None? || RowByDiscord(rows, row.discordId.value).None?
    ensures TableConstraints(rows + [row]) <==>
      |row.minecraftUuid| <= 36 && |row.currentUsername| <= 255
  {
    var t := rows + [row];
    assert t[|rows|] == row;
    assert forall i | 0 <= i < |rows| :: t[i] == rows[i];
  }

  lemma AppendedRowBounds(rows: seq<UserRow>, row: UserRow)
    requires TableConstraints(rows + [row])
    ensures |row.currentUsername| <= 255 && |row.minecraftUuid| <= 36
  {
    assert (rows + [row])[|rows|] == row;
  }

  /** Appending keeps the cap when the table was below it, which `/register` checks first. */
  lemma AppendKeepsCap(rows: seq<UserRow>, row: UserRow)
    requires |rows| < MAX_USERS
    ensures |UpsertRows(rows, row)| <= MAX_USERS
  {
  }
}
