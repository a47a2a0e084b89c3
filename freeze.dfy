/** The freeze gate: every player who joins is frozen in place until the bot reports that
    their Minecraft account is linked to a Discord account. The gate is a map from player id
    to a `FrozenPlayer` record, which keeps where the player was frozen and two throttle
    timestamps. Registration checks run asynchronously in the mod; here scheduling a check
    returns a `PendingCheck` value and its completion is a separate step on the server
    thread. */
module Freeze {
  import opened Wrappers
  import opened JavaLang
  import opened World
  import Throttle

  const UNFREEZE_TEXT: string := "Your account has been registered. You can move now."

  /** What a `FrozenPlayer` holds, as a value. */
  datatype Entry = Entry(dimension: string, position: Vec3, yaw: real, pitch: real,
                         lastCheckMillis: Long, lastMessageMillis: Long)

  /** Where a player stood when frozen; only the two timestamps change afterwards. */
  class FrozenPlayer {
    const dimension: string
    const position: Vec3
    const yaw: real
    const pitch: real
    var lastCheckMillis: Long
    var lastMessageMillis: Long

    /** Unassigned `long` fields start at 0. */
    constructor (dimension: string, position: Vec3, yaw: real, pitch: real)
      ensures this.dimension == dimension && this.position == position
      ensures this.yaw == yaw && this.pitch == pitch
      ensures lastCheckMillis == 0 && lastMessageMillis == 0
    {
      this.dimension := dimension;
      this.position := position;
      this.yaw := yaw;
      this.pitch := pitch;
      lastCheckMillis := 0;
      lastMessageMillis := 0;
    }

    method SetLastCheckMillis(v: Long)
      modifies this`lastCheckMillis
      ensures lastCheckMillis == v && lastMessageMillis == old(lastMessageMillis)
    {
      lastCheckMillis := v;
    }

    method SetLastMessageMillis(v: Long)
      modifies this`lastMessageMillis
      ensures lastMessageMillis == v && lastCheckMillis == old(lastCheckMillis)
    {
      lastMessageMillis := v;
    }

    function Snapshot(): Entry
      reads this
    {
      Entry(dimension, position, yaw, pitch, lastCheckMillis, lastMessageMillis)
    }
  }

  /** The entry `freeze` creates for a player at time `now`. */
  function Frozen(p: Player, now: Millis): Entry {
    Entry(p.dimension, p.position, p.yaw, p.pitch, now, now)
  }

  /** A registration check handed to the executor: whose, and whether the instruction message
      is to be sent at once if the player turns out not to be registered. */
  datatype PendingCheck = PendingCheck(id: PlayerId, immediateMessage: bool)

  /** What one tick of a frozen player does to its entry: the two throttles, each on its own
      timestamp and interval. */
  datatype TickResult = TickResult(entry: Entry, check: bool, message: bool)

  function TickEntry(e: Entry, now: Millis, checkIntervalSeconds: Int32, messageIntervalSeconds: Int32): (r: TickResult)
    requires e.lastCheckMillis >= 0 && e.lastMessageMillis >= 0
    ensures r.entry.dimension == e.dimension && r.entry.position == e.position
    ensures r.entry.yaw == e.yaw && r.entry.pitch == e.pitch
    ensures r.check <==> now - e.lastCheckMillis >= checkIntervalSeconds * 1000
    ensures r.message <==> now - e.lastMessageMillis >= messageIntervalSeconds * 1000
    ensures r.entry.lastCheckMillis == (if r.check then now else e.lastCheckMillis)
    ensures r.entry.lastMessageMillis == (if r.message then now else e.lastMessageMillis)
  {
    var c := Throttle.Tick(e.lastCheckMillis, now, Throttle.IntervalMillis(checkIntervalSeconds));
    var m := Throttle.Tick(e.lastMessageMillis, now, Throttle.IntervalMillis(messageIntervalSeconds));
    TickResult(e.(lastCheckMillis := c.last, lastMessageMillis := m.last), c.fired, m.fired)
  }

  /** The outcome of a completed registration check. */
  datatype CheckOutcome =
    | Offline
    | Unfrozen(unfreezeHookCalled: bool)
    | StillFrozen(instructed: bool)

  class FreezeManager {
    var frozenPlayers: map<PlayerId, FrozenPlayer>
    var hasServer: bool
    /** Whether an `onUnfreeze` consumer was supplied. */
    const hasUnfreezeHook: bool

    /** Each frozen player has a record of their own, and its timestamps are times. */
    ghost predicate Valid()
      reads this, frozenPlayers.Values
    {
      (forall a, b | a in frozenPlayers && b in frozenPlayers && a != b :: frozenPlayers[a] != frozenPlayers[b]) &&
      forall id | id in frozenPlayers ::
        frozenPlayers[id].lastCheckMillis >= 0 && frozenPlayers[id].lastMessageMillis >= 0
    }

    /** The gate's state as values. */
    ghost function Entries(): map<PlayerId, Entry>
      reads this, frozenPlayers.Values
    {
      map id | id in frozenPlayers :: frozenPlayers[id].Snapshot()
    }

    constructor (hasUnfreezeHook: bool)
      ensures Valid() && Entries() == map[]
      ensures !hasServer && this.hasUnfreezeHook == hasUnfreezeHook
    {
      frozenPlayers := map[];
      hasServer := false;
      this.hasUnfreezeHook := hasUnfreezeHook;
    }

    method SetServer(present: bool)
      modifies this`hasServer
      ensures hasServer == present
    {
      hasServer := present;
    }

    function IsFrozen(id: PlayerId): (b: bool)
      reads this, frozenPlayers.Values
      ensures b <==> id in Entries()
    {
      id in frozenPlayers
    }

    /** `scheduleRegistrationCheck`: nothing is scheduled while there is no server. */
    function Schedule(id: PlayerId, immediateMessage: bool): (r: Option<PendingCheck>)
      reads this
      ensures r.Some? <==> hasServer
      ensures r.Some? ==> r.value.id == id && r.value.immediateMessage == immediateMessage
    {
      if hasServer then Some(PendingCheck(id, immediateMessage)) else None
    }

    /** When only the record of `id` changed, only the entry of `id` changed. */
    twostate lemma OneRecordChanged(id: PlayerId)
      requires old(Valid()) && frozenPlayers == old(frozenPlayers) && id in frozenPlayers
      requires forall k | k in frozenPlayers && k != id :: unchanged(frozenPlayers[k])
      ensures Entries() == old(Entries())[id := frozenPlayers[id].Snapshot()]
    {
    }

    /** `freeze`: a fresh record at the player's place, both throttles starting at `now`. */
    method FreezePlayer(id: PlayerId, p: Player, now: Millis)
      requires Valid()
      modifies this`frozenPlayers
      ensures Valid()
      ensures Entries() == old(Entries())[id := Frozen(p, now)]
    {
      var frozen := new FrozenPlayer(p.dimension, p.position, p.yaw, p.pitch);
      frozen.SetLastCheckMillis(now);
      frozen.SetLastMessageMillis(now);
      assert frozen.Snapshot() == Frozen(p, now);
      frozenPlayers := frozenPlayers[id := frozen];
      assert forall k | k in old(frozenPlayers) :: old(frozenPlayers)[k] != frozen;
    }

    method HandlePlayerJoin(id: PlayerId, p: Player, now: Millis) returns (pending: Option<PendingCheck>)
      requires Valid()
      modifies this`frozenPlayers
      ensures Valid()
      ensures Entries() == old(Entries())[id := Frozen(p, now)]
      ensures pending == Schedule(id, true)
    {
      FreezePlayer(id, p, now);
      pending := Schedule(id, true);
    }

    method HandlePlayerQuit(id: PlayerId)
      requires Valid()
      modifies this`frozenPlayers
      ensures Valid()
      ensures Entries() == old(Entries()) - {id}
    {
      frozenPlayers := frozenPlayers - {id};
    }

    /** The throttle part of `handlePlayerTick`; the interval settings are passed in. Holding the
        player in place is floating-point movement code and not modelled. */
    method HandlePlayerTick(id: PlayerId, now: Millis, checkIntervalSeconds: Int32, messageIntervalSeconds: Int32,
                            instruction: string)
      returns (pending: Option<PendingCheck>, sent: seq<ChatMessage>)
      requires Valid()
      modifies if id in frozenPlayers then {frozenPlayers[id]} else {}
      ensures Valid()
      ensures id !in old(Entries()) ==> Entries() == old(Entries()) && pending == None && sent == []
      ensures id in old(Entries()) ==>
        var t := TickEntry(old(Entries())[id], now, checkIntervalSeconds, messageIntervalSeconds);
        Entries() == old(Entries())[id := t.entry] &&
        pending == (if t.check then Schedule(id, false) else None) &&
        sent == (if t.message then [ChatMessage(instruction, Red)] else [])
    {
      pending, sent := None, [];
      if id !in frozenPlayers {
        return;
      }
      var frozen := frozenPlayers[id];
      var check := Throttle.Tick(frozen.lastCheckMillis, now, Throttle.IntervalMillis(checkIntervalSeconds));
      if check.fired {
        frozen.SetLastCheckMillis(now);
        pending := Schedule(id, false);
      }
      var message := Throttle.Tick(frozen.lastMessageMillis, now, Throttle.IntervalMillis(messageIntervalSeconds));
      if message.fired {
        frozen.SetLastMessageMillis(now);
        sent := [ChatMessage(instruction, Red)];
      }
      OneRecordChanged(id);
    }

    /** The callback of a registration check, run on the server thread once the bot answered.
        `online` is the server's player list at that moment. */
    method CompleteCheck(check: PendingCheck, registered: bool, online: map<PlayerId, Player>, now: Millis,
                         instruction: string)
      returns (outcome: CheckOutcome, sent: seq<ChatMessage>)
      requires Valid()
      modifies this`frozenPlayers
      ensures Valid()
      ensures check.id !in online ==> Entries() == old(Entries()) && outcome == Offline && sent == []
      ensures check.id in online && registered ==>
        Entries() == old(Entries()) - {check.id} && outcome == Unfrozen(hasUnfreezeHook) &&
        sent == [ChatMessage(UNFREEZE_TEXT, Green)]
      ensures check.id in online && !registered ==>
        Entries() == (if check.id in old(Entries()) then old(Entries())
                      else old(Entries())[check.id := Frozen(online[check.id], now)]) &&
        outcome == StillFrozen(check.immediateMessage) &&
        sent == (if check.immediateMessage then [ChatMessage(instruction, Red)] else [])
    {
      if check.id !in online {
        return Offline, [];
      }
      var current := online[check.id];
      if registered {
        frozenPlayers := frozenPlayers - {check.id};
        outcome, sent := Unfrozen(hasUnfreezeHook), [ChatMessage(UNFREEZE_TEXT, Green)];
      } else {
        if check.id !in frozenPlayers {
          FreezePlayer(check.id, current, now);
        }
        outcome, sent := StillFrozen(check.immediateMessage), [];
        if check.immediateMessage {
          sent := [ChatMessage(instruction, Red)];
        }
      }
    }
  }
}
