/** The real-time gateway: the WebSocket endpoint that registers one
    session per player, routes the client's commands to the services and
    sends frames back. A parsed client message is its top-level fields,
    each read as text; a frame is the message sent, before it is written
    as JSON. The clock is the parameter `now`; whether a session is still
    open is the transport's set `open`. */
module Gateway {
  import opened Wrappers
  import opened Text
  import opened LocationModel
  import opened StaticData
  import opened ItemRepository
  import opened Inventory
  import opened Players
  import opened ActionEngine
  import opened LocationService

  type SessionId = nat

  /** The query parameter that names the player. */
  const PLAYER_ID: string := "playerId="

  /** The current action as STATE_INIT shows it: the progress is the time
      since the start, in seconds. */
  datatype ActionView = ActionView(actionId: string, instanceId: string, progress: real)

  /** The frames the server sends. */
  datatype Frame =
    | Error(errorMessage: string)
    | StateInit(player: Player, inventory: seq<ItemRow>, equipped: seq<ItemRow>,
                currentAction: Option<ActionView>, location: Option<Location>)
    | StateDelta(xpDelta: map<string, int>, inventoryDelta: map<string, int>, health: int, message: Option<string>)
    | CombatStart(targetMob: string, warningMessage: Option<string>)
    | CombatEnd(message: Option<string>)
    | Alert(warningMessage: Option<string>)

  /** A frame and the session it is written to. */
  datatype Outgoing = Outgoing(session: SessionId, frame: Frame)

  /** A client message: the text of each top-level field, or the reason
      it could not be read as a JSON object. */
  datatype Inbound = Json(fields: map<string, string>) | Unparseable(reason: string)

  /** Everything a client command can read or change: the active actions,
      the agent-state table, the item table and the player table. */
  datatype World = World(
    active: map<string, ActionState>,
    states: map<string, AgentState>,
    table: Table,
    players: map<string, Player>)

  // ----- The player id in the connection's query string -----

  /** The first parameter that starts with "playerId=", without that
      prefix. */
  function PlayerIdParam(params: seq<string>): (r: Option<string>)
    ensures r.Some? ==> exists k :: 0 <= k < |params| && StartsWith(params[k], PLAYER_ID)
                                    && r.value == params[k][|PLAYER_ID|..]
    ensures r.None? ==> forall k :: 0 <= k < |params| ==> !StartsWith(params[k], PLAYER_ID)
    decreases |params|
  {
    if params == [] then None
    else if StartsWith(params[0], PLAYER_ID) then Some(params[0][|PLAYER_ID|..])
    else
      var r := PlayerIdParam(params[1..]);
      assert forall k :: 1 <= k < |params| ==> params[k] == params[1..][k - 1];
      r
  }

  /** `getPlayerIdFromSession`: nothing unless the query mentions
      "playerId="; then the first '&'-separated parameter that starts
      with it. The id never contains '&'. */
  function PlayerIdFromQuery(query: Option<string>): (r: Option<string>)
    ensures r.Some? ==> '&' !in r.value
    ensures r.Some? ==> query.Some? && Contains(query.value, PLAYER_ID)
  {
    if query.None? || !Contains(query.value, PLAYER_ID) then None
    else
      var r := PlayerIdParam(Split(query.value, '&'));
      assert r.Some? ==> forall c :: c in r.value ==> c != '&';
      r
  }

  /** Parameters up to `k` that do not name the player leave the choice to
      parameter `k`. */
  lemma {:induction false} PlayerIdParamAt(params: seq<string>, k: nat)
    requires k < |params|
    requires forall i :: 0 <= i < k ==> !StartsWith(params[i], PLAYER_ID)
    ensures PlayerIdParam(params) == PlayerIdParam(params[k..])
    decreases k
  {
    if k > 0 {
      assert !StartsWith(params[0], PLAYER_ID);
      PlayerIdParamAt(params[1..], k - 1);
      assert params[1..][k - 1..] == params[k..];
    }
  }

  /** Round trip: a query built from '&'-free parameters, the first of
      which to start with "playerId=" is "playerId=" + id, yields id. */
  lemma QueryRoundTrip(params: seq<string>, k: nat, id: string)
    requires k < |params| && params[k] == PLAYER_ID + id
    requires forall i :: 0 <= i < |params| ==> '&' !in params[i]
    requires forall i :: 0 <= i < k ==> !StartsWith(params[i], PLAYER_ID)
    ensures PlayerIdFromQuery(Some(Join(params, '&'))) == Some(id)
  {
    assert StartsWith(params[k], PLAYER_ID) by {
      assert params[k][..|PLAYER_ID|] == PLAYER_ID;
    }
    SplitJoin(params, '&');
    ContainsJoinPart(params, '&', k, PLAYER_ID);
    PlayerIdParamAt(params, k);
    assert params[k..][0] == params[k];
    assert params[k][|PLAYER_ID|..] == id;
  }

  /** A query that never mentions "playerId=" identifies nobody, and a
      bare "playerId=" identifies the player with the empty id. */
  lemma QueryWithoutPlayerId(query: string)
    ensures !Contains(query, PLAYER_ID) ==> PlayerIdFromQuery(Some(query)).None?
    ensures PlayerIdFromQuery(Some(PLAYER_ID)) == Some("")
  {
    QueryRoundTrip([PLAYER_ID], 0, "");
    assert Join([PLAYER_ID], '&') == PLAYER_ID;
    assert PLAYER_ID + "" == PLAYER_ID;
  }

  // ----- Sessions -----

  /** `onOpen` with an identified player: the player's session is the new
      one (replacing any earlier session) and the session remembers its
      player. */
  function Register(sessions: map<string, SessionId>, owners: map<SessionId, string>,
                    session: SessionId, playerId: string): (r: (map<string, SessionId>, map<SessionId, string>))
    ensures playerId in r.0 && r.0[playerId] == session
    ensures session in r.1 && r.1[session] == playerId
    ensures forall p :: p != playerId ==> (p in r.0 <==> p in sessions) && (p in sessions ==> r.0[p] == sessions[p])
  {
    (sessions[playerId := session], owners[session := playerId])
  }

  /** `onClose`: the closing session's player is unregistered, whatever
      session is registered for that player now. */
  function Unregister(sessions: map<string, SessionId>, owners: map<SessionId, string>,
                      session: SessionId): (r: map<string, SessionId>)
    ensures session in owners ==> owners[session] !in r
    ensures forall p :: p in r <==> p in sessions && !(session in owners && p == owners[session])
  {
    if session in owners then sessions - {owners[session]} else sessions
  }

  /** How a frame meant for a player travels: to the player's registered
      session when that session is open, otherwise nowhere. */
  function Deliver(sessions: map<string, SessionId>, open: set<SessionId>, playerId: string, frame: Frame)
    : (out: seq<Outgoing>)
    ensures |out| <= 1
    ensures out != [] <==> playerId in sessions && sessions[playerId] in open
    ensures out != [] ==> out[0] == Outgoing(sessions[playerId], frame)
  {
    if playerId in sessions && sessions[playerId] in open then [Outgoing(sessions[playerId], frame)] else []
  }

  /** A player who connected on an open session receives what is sent to
      them on that session. */
  lemma OpenThenDeliver(sessions: map<string, SessionId>, owners: map<SessionId, string>,
                        session: SessionId, playerId: string, open: set<SessionId>, frame: Frame)
    requires session in open
    ensures Deliver(Register(sessions, owners, session, playerId).0, open, playerId, frame)
            == [Outgoing(session, frame)]
  {
  }

  /** A player who reconnects on a second session and whose first session
      then closes is no longer registered: frames sent to them are dropped
      although the second session is open. */
  lemma StaleCloseUnregistersReconnect(sessions: map<string, SessionId>, owners: map<SessionId, string>,
                                       first: SessionId, second: SessionId, playerId: string,
                                       open: set<SessionId>, frame: Frame)
    requires first != second
    ensures var (s1, o1) := Register(sessions, owners, first, playerId);
            var (s2, o2) := Register(s1, o1, second, playerId);
            && s2[playerId] == second
            && Deliver(Unregister(s2, o2, first), open, playerId, frame) == []
  {
    var (s1, o1) := Register(sessions, owners, first, playerId);
    var (s2, o2) := Register(s1, o1, second, playerId);
    assert o2[first] == playerId;
  }

  // ----- STATE_INIT -----

  /** The current action as shown at time `now`. */
  function View(a: ActionState, now: int): (v: ActionView)
    ensures now == a.startTime ==> v.progress == 0.0
    ensures v.instanceId == "" <==> a.instanceId.None? || a.instanceId.value == ""
  {
    ActionView(a.actionId, a.instanceId.GetOr(""), (now - a.startTime) as real / 1000.0)
  }

  /** `sendStateInit`: "Player not found" for an unknown player, otherwise
      the player, their rows, their equipped rows, their action and their
      location. */
  function InitFrame(w: World, registry: Registry, playerId: string, now: int): (f: Frame)
    ensures f.Error? <==> playerId !in w.players
    ensures f.Error? ==> f.errorMessage == "Player not found"
    ensures f.StateInit? ==> f.player == w.players[playerId]
    ensures f.StateInit? ==> forall r :: r in f.inventory <==> r in w.table.rows && r.ownerId == playerId
    ensures f.StateInit? ==> forall r :: r in f.equipped <==> r in f.inventory && r.slot != INVENTORY
    ensures f.StateInit? ==> (f.currentAction.Some? <==> playerId in w.active)
    ensures f.StateInit? ==> f.location == CurrentLocation(w.states, registry, playerId)
  {
    if playerId !in w.players then Error("Player not found")
    else
      StateInit(w.players[playerId],
                FindByOwnerId(w.table.rows, playerId),
                FindEquippedByOwnerId(w.table.rows, playerId),
                if playerId in w.active then Some(View(w.active[playerId], now)) else None,
                CurrentLocation(w.states, registry, playerId))
  }

  // ----- Client commands -----

  /** The first of `rows` holding `itemId` in the INVENTORY slot. */
  function FirstInInventory(rows: seq<ItemRow>, itemId: string): (r: Option<ItemRow>)
    ensures r.Some? ==> r.value in rows && r.value.itemId == itemId && r.value.slot == INVENTORY
    ensures r.None? <==> forall x :: x in rows ==> !(x.itemId == itemId && x.slot == INVENTORY)
    decreases |rows|
  {
    if rows == [] then None
    else if rows[0].itemId == itemId && rows[0].slot == INVENTORY then Some(rows[0])
    else
      var r := FirstInInventory(rows[1..], itemId);
      assert forall x :: x in rows ==> x == rows[0] || x in rows[1..];
      r
  }

  /** One reply to the sender. */
  function Reply(session: SessionId, frame: Frame): seq<Outgoing> {
    [Outgoing(session, frame)]
  }

  /** `handleStartAction`: the action starts at `now`, then the new state
      is sent; a missing id or a refused start is an error. */
  function StartCommand(w: World, registry: Registry, session: SessionId, playerId: string,
                        fields: map<string, string>, now: int): (r: (World, seq<Outgoing>))
    ensures r.0 == w.(active := r.0.active)
    ensures forall p :: p in r.0.active && p !in w.active ==> p == playerId
    ensures forall p :: p in w.active ==> p in r.0.active && r.0.active[p] == w.active[p]
    ensures |r.1| == 1 && r.1[0].session == session
    ensures "actionId" !in fields ==> r.0 == w && r.1[0].frame.Error?
  {
    if "actionId" !in fields then (w, Reply(session, Error("Missing 'actionId' field")))
    else
      var instanceId := if "instanceId" in fields then Some(fields["instanceId"]) else None;
      match StartActionSpec(w.active, registry, playerId, fields["actionId"], instanceId, now)
      case Err(e) => (w, Reply(session, Error("Failed to start action: " + e.Message())))
      case Ok(active) =>
        var after := w.(active := active);
        (after, Reply(session, InitFrame(after, registry, playerId, now)))
  }

  /** `handleMoveLocation`: the action stops first, then the move is tried;
      a failed move keeps the action stopped. */
  function MoveCommand(w: World, registry: Registry, session: SessionId, playerId: string,
                       fields: map<string, string>, now: int): (r: (World, seq<Outgoing>))
    ensures r.0 == w.(active := r.0.active, states := r.0.states)
    ensures "targetLocationId" in fields ==> r.0.active == w.active - {playerId}
    ensures |r.1| == 1 && r.1[0].session == session
    ensures "targetLocationId" !in fields ==> r.0 == w && r.1[0].frame.Error?
  {
    if "targetLocationId" !in fields then (w, Reply(session, Error("Missing 'targetLocationId' field")))
    else
      var stopped := w.(active := w.active - {playerId});
      match MoveSpec(w.states, registry, playerId, fields["targetLocationId"])
      case Err(e) => (stopped, Reply(session, Error("Failed to move location: " + e.Message())))
      case Ok(res) =>
        var after := stopped.(states := res.0);
        (after, Reply(session, InitFrame(after, registry, playerId, now)))
  }

  /** `handleAttackTarget`: combat is not wired to the gateway; the player
      is alerted. */
  function AttackCommand(w: World, sessions: map<string, SessionId>, open: set<SessionId>,
                         session: SessionId, playerId: string, fields: map<string, string>): (r: (World, seq<Outgoing>))
    ensures r.0 == w && |r.1| <= 1
    ensures forall o :: o in r.1 ==> o.session == session || (o.frame.Alert? && playerId in sessions && o.session == sessions[playerId])
    ensures "targetUnitId" !in fields ==> |r.1| == 1 && r.1[0].session == session && r.1[0].frame.Error?
  {
    if "targetUnitId" !in fields then (w, Reply(session, Error("Missing 'targetUnitId' field")))
    else (w, Deliver(sessions, open, playerId, Alert(Some("Combat system not yet implemented"))))
  }

  /** `handleEquipItem`: equips the player's first unequipped row of the
      item, then sends the new state. */
  function EquipCommand(w: World, registry: Registry, session: SessionId, playerId: string,
                        fields: map<string, string>, now: int): (r: (World, seq<Outgoing>))
    ensures r.0 == w.(table := r.0.table)
    ensures |r.1| == 1 && r.1[0].session == session
    ensures "itemId" !in fields || "slot" !in fields ==> r.0 == w && r.1[0].frame.Error?
  {
    if "itemId" !in fields || "slot" !in fields then (w, Reply(session, Error("Missing 'itemId' or 'slot' field")))
    else
      match FirstInInventory(FindByOwnerId(w.table.rows, playerId), fields["itemId"])
      case None => (w, Reply(session, Error("Item not found in inventory")))
      case Some(row) =>
        match EquipItemSpec(w.table, registry.items, playerId, row.id, fields["slot"])
        case Err(e) => (w, Reply(session, Error("Failed to equip item: " + e.Message())))
        case Ok(res) =>
          var after := w.(table := res.0);
          (after, Reply(session, InitFrame(after, registry, playerId, now)))
  }

  /** `handleSellItem`: the store is not wired to the gateway; the player
      is alerted. */
  function SellCommand(w: World, sessions: map<string, SessionId>, open: set<SessionId>,
                       session: SessionId, playerId: string, fields: map<string, string>): (r: (World, seq<Outgoing>))
    ensures r.0 == w && |r.1| <= 1
    ensures forall o :: o in r.1 ==> o.session == session || (o.frame.Alert? && playerId in sessions && o.session == sessions[playerId])
    ensures "itemId" !in fields || "storeId" !in fields ==> |r.1| == 1 && r.1[0].session == session && r.1[0].frame.Error?
  {
    if "itemId" !in fields || "storeId" !in fields then (w, Reply(session, Error("Missing 'itemId' or 'storeId' field")))
    else (w, Deliver(sessions, open, playerId, Alert(Some("Store system not yet implemented"))))
  }

  /** The message types the gateway's switch knows, and any other name. */
  datatype MessageKind = StartAction | MoveLocation | AttackTarget | EquipItem | SellItem | UnknownType(name: string)

  /** The name a message type goes by on the wire. */
  function TypeName(k: MessageKind): string {
    match k
    case StartAction => "START_ACTION"
    case MoveLocation => "MOVE_LOCATION"
    case AttackTarget => "ATTACK_TARGET"
    case EquipItem => "EQUIP_ITEM"
    case SellItem => "SELL_ITEM"
    case UnknownType(name) => name
  }

  /** The case of the switch on the "type" field a name selects; reading the
      name back gives it unchanged, and only a name that is none of the
      five is unknown. */
  function KindOf(t: string): (k: MessageKind)
    ensures TypeName(k) == t
    ensures k.UnknownType? <==> forall known: MessageKind :: !known.UnknownType? ==> TypeName(known) != t
  {
    if t == "START_ACTION" then StartAction
    else if t == "MOVE_LOCATION" then MoveLocation
    else if t == "ATTACK_TARGET" then AttackTarget
    else if t == "EQUIP_ITEM" then EquipItem
    else if t == "SELL_ITEM" then SellItem
    else UnknownType(t)
  }

  /** `onMessage`: the session must know its player, the message must be
      an object with a "type", and the type picks the handler. */
  function MessageSpec(w: World, registry: Registry, sessions: map<string, SessionId>, open: set<SessionId>,
                       session: SessionId, playerId: Option<string>, message: Inbound, now: int)
    : (World, seq<Outgoing>)
  {
    if playerId.None? then (w, Reply(session, Error("Player ID not found")))
    else
      var p := playerId.value;
      match message
      case Unparseable(reason) => (w, Reply(session, Error("Error processing message: " + reason)))
      case Json(fields) =>
        if "type" !in fields then (w, Reply(session, Error("Missing 'type' field in message")))
        else
          match KindOf(fields["type"])
          case StartAction => StartCommand(w, registry, session, p, fields, now)
          case MoveLocation => MoveCommand(w, registry, session, p, fields, now)
          case AttackTarget => AttackCommand(w, sessions, open, session, p, fields)
          case EquipItem => EquipCommand(w, registry, session, p, fields, now)
          case SellItem => SellCommand(w, sessions, open, session, p, fields)
          case UnknownType(t) => (w, Reply(session, Error("Unknown message type: " + t)))
  }

  /** The kind of a readable message with a type. */
  function KindOfMessage(message: Inbound): (k: Option<MessageKind>)
    ensures k.Some? <==> message.Json? && "type" in message.fields
    ensures k.Some? ==> TypeName(k.value) == message.fields["type"]
  {
    if message.Json? && "type" in message.fields then Some(KindOf(message.fields["type"])) else None
  }

  /** The fields a message type cannot do without. */
  function RequiredFields(k: MessageKind): set<string> {
    match k
    case StartAction => {"actionId"}
    case MoveLocation => {"targetLocationId"}
    case AttackTarget => {"targetUnitId"}
    case EquipItem => {"itemId", "slot"}
    case SellItem => {"itemId", "storeId"}
    case UnknownType(_) => {}
  }

  /** A message from a session without a player, an unreadable message, a
      message without a type, a message of an unknown type and a command
      without one of its required fields each change nothing and answer
      the sender with one error. */
  lemma RejectedMessagesChangeNothing(w: World, registry: Registry, sessions: map<string, SessionId>,
                                      open: set<SessionId>, session: SessionId, playerId: Option<string>,
                                      message: Inbound, now: int)
    requires || playerId.None?
             || KindOfMessage(message).None?
             || KindOfMessage(message).value.UnknownType?
             || !(RequiredFields(KindOfMessage(message).value) <= message.fields.Keys)
    ensures var (after, out) := MessageSpec(w, registry, sessions, open, session, playerId, message, now);
            after == w && |out| == 1 && out[0].session == session && out[0].frame.Error?
  {
    var r := MessageSpec(w, registry, sessions, open, session, playerId, message, now);
    if playerId.Some? && KindOfMessage(message).Some? {
      var (p, fields) := (playerId.value, message.fields);
      match KindOf(fields["type"])
      case StartAction => assert r == StartCommand(w, registry, session, p, fields, now);
      case MoveLocation => assert r == MoveCommand(w, registry, session, p, fields, now);
      case AttackTarget => assert r == AttackCommand(w, sessions, open, session, p, fields);
      case EquipItem => assert r == EquipCommand(w, registry, session, p, fields, now);
      case SellItem => assert r == SellCommand(w, sessions, open, session, p, fields);
      case UnknownType(_) =>
    }
  }

  /** Every message answers with at most one frame; it goes to the sender,
      except an alert, which goes to the player's registered session. */
  lemma OneFrameToTheSender(w: World, registry: Registry, sessions: map<string, SessionId>,
                            open: set<SessionId>, session: SessionId, playerId: Option<string>,
                            message: Inbound, now: int)
    ensures var (_, out) := MessageSpec(w, registry, sessions, open, session, playerId, message, now);
            && |out| <= 1
            && forall o :: o in out ==>
                 o.session == session || (o.frame.Alert? && playerId.Some? && playerId.value in sessions && o.session == sessions[playerId.value])
  {
    var r := MessageSpec(w, registry, sessions, open, session, playerId, message, now);
    if playerId.Some? && KindOfMessage(message).Some? {
      var (p, fields) := (playerId.value, message.fields);
      match KindOf(fields["type"])
      case StartAction => assert r == StartCommand(w, registry, session, p, fields, now);
      case MoveLocation => assert r == MoveCommand(w, registry, session, p, fields, now);
      case AttackTarget => assert r == AttackCommand(w, sessions, open, session, p, fields);
      case EquipItem => assert r == EquipCommand(w, registry, session, p, fields, now);
      case SellItem => assert r == SellCommand(w, sessions, open, session, p, fields);
      case UnknownType(_) =>
    }
  }

  /** Which tables a message may change: no message changes the player
      table; only MOVE_LOCATION changes the agent-state table; only
      EQUIP_ITEM changes the item table. */
  lemma MessageTableFootprint(w: World, registry: Registry, sessions: map<string, SessionId>,
                              open: set<SessionId>, session: SessionId, playerId: Option<string>,
                              message: Inbound, now: int)
    ensures var (after, _) := MessageSpec(w, registry, sessions, open, session, playerId, message, now);
            var k := KindOfMessage(message);
            && after.players == w.players
            && (k != Some(MoveLocation) ==> after.states == w.states)
            && (k != Some(EquipItem) ==> after.table == w.table)
  {
    var r := MessageSpec(w, registry, sessions, open, session, playerId, message, now);
    if playerId.Some? && KindOfMessage(message).Some? {
      var (p, fields) := (playerId.value, message.fields);
      match KindOf(fields["type"])
      case StartAction => assert r == StartCommand(w, registry, session, p, fields, now);
      case MoveLocation => assert r == MoveCommand(w, registry, session, p, fields, now);
      case AttackTarget => assert r == AttackCommand(w, sessions, open, session, p, fields);
      case EquipItem => assert r == EquipCommand(w, registry, session, p, fields, now);
      case SellItem => assert r == SellCommand(w, sessions, open, session, p, fields);
      case UnknownType(_) =>
    }
  }

  /** How a message may change the active actions: only START_ACTION and
      MOVE_LOCATION change them at all, and START_ACTION only adds an
      action for its own player, keeping every other one. */
  lemma MessageActiveFootprint(w: World, registry: Registry, sessions: map<string, SessionId>,
                               open: set<SessionId>, session: SessionId, playerId: Option<string>,
                               message: Inbound, now: int)
    ensures var (after, _) := MessageSpec(w, registry, sessions, open, session, playerId, message, now);
            var k := KindOfMessage(message);
            && (k != Some(StartAction) && k != Some(MoveLocation) ==> after.active == w.active)
            && (k == Some(StartAction) ==> forall p :: p in after.active && p !in w.active ==> Some(p) == playerId)
            && (k == Some(StartAction) ==> forall p :: p in w.active ==> p in after.active && after.active[p] == w.active[p])
  {
  }

  /** MOVE_LOCATION with a target stops the player's action whether or
      not the move succeeds; with the shipped, empty location catalogue
      the move always fails and only the stop remains. */
  lemma MoveAlwaysStops(w: World, registry: Registry, sessions: map<string, SessionId>,
                        open: set<SessionId>, session: SessionId, playerId: string,
                        fields: map<string, string>, now: int)
    requires "type" in fields && fields["type"] == "MOVE_LOCATION" && "targetLocationId" in fields
    ensures var (after, _) := MessageSpec(w, registry, sessions, open, session, Some(playerId), Json(fields), now);
            after.active == w.active - {playerId}
    ensures var (after, out) := MessageSpec(w, Shipped(), sessions, open, session, Some(playerId), Json(fields), now);
            && after == w.(active := w.active - {playerId})
            && out == Reply(session, Error("Failed to move location: " + ("Location not found: " + fields["targetLocationId"])))
  {
    assert KindOf(fields["type"]) == MoveLocation;
    assert MessageSpec(w, registry, sessions, open, session, Some(playerId), Json(fields), now)
        == MoveCommand(w, registry, session, playerId, fields, now);
    assert MessageSpec(w, Shipped(), sessions, open, session, Some(playerId), Json(fields), now)
        == MoveCommand(w, Shipped(), session, playerId, fields, now);
    ShippedLocationsUnknown(w.states, playerId, fields["targetLocationId"]);
  }

  /** A START_ACTION that succeeds answers with the new state, showing the
      action just started with no progress yet. */
  lemma StartShowsNewAction(w: World, registry: Registry, sessions: map<string, SessionId>,
                            open: set<SessionId>, session: SessionId, playerId: string,
                            fields: map<string, string>, now: int)
    requires "type" in fields && fields["type"] == "START_ACTION" && "actionId" in fields
    requires fields["actionId"] in registry.actions && playerId !in w.active && playerId in w.players
    ensures var (after, out) := MessageSpec(w, registry, sessions, open, session, Some(playerId), Json(fields), now);
            && |out| == 1 && out[0].frame.StateInit?
            && out[0].frame.currentAction
               == Some(ActionView(fields["actionId"], if "instanceId" in fields then fields["instanceId"] else "", 0.0))
  {
  }

  // ----- The endpoint -----

  /** The endpoint and the services it drives. `owners` holds what each
      session remembers as its player. */
  class GameGateway {
    var sessions: map<string, SessionId>
    var owners: map<SessionId, string>
    const actions: ActionService
    const locations: AgentStateStore

    ghost predicate Valid()
      reads this, actions, actions.inventory, actions.players, locations
    {
      actions.Valid() && locations.Valid() && locations.registry == actions.registry
    }

    constructor (actions: ActionService, locations: AgentStateStore)
      requires actions.Valid() && locations.Valid() && locations.registry == actions.registry
      ensures Valid() && sessions == map[] && owners == map[]
      ensures this.actions == actions && this.locations == locations
    {
      sessions := map[];
      owners := map[];
      this.actions := actions;
      this.locations := locations;
    }

    /** The tables a command works on. */
    function State(): World
      reads actions, actions.inventory, actions.players, locations
    {
      World(actions.activeActions, locations.states, actions.inventory.State(), actions.players.players)
    }

    /** `getPlayerIdFromSession`, scanning the parameters in order. */
    method GetPlayerIdFromSession(query: Option<string>) returns (id: Option<string>)
      ensures id == PlayerIdFromQuery(query)
    {
      if query.None? || !Contains(query.value, PLAYER_ID) {
        return None;
      }
      var params := Split(query.value, '&');
      var i := 0;
      while i < |params|
        invariant 0 <= i <= |params|
        invariant PlayerIdParam(params) == PlayerIdParam(params[i..])
      {
        if StartsWith(params[i], PLAYER_ID) {
          return Some(params[i][|PLAYER_ID|..]);
        }
        assert params[i..][1..] == params[i + 1..];
        i := i + 1;
      }
      id := None;
    }

    /** `onOpen`: without a player id the session is closed and nothing is
        registered; otherwise the session is registered, the player row is
        created if missing and the full state is sent. */
    method OnOpen(session: SessionId, query: Option<string>, now: int) returns (closed: bool, out: seq<Outgoing>)
      requires Valid()
      modifies this, actions.players
      ensures Valid()
      ensures closed <==> PlayerIdFromQuery(query).None?
      ensures closed ==> out == [] && sessions == old(sessions) && owners == old(owners)
                         && actions.players.players == old(actions.players.players)
      ensures !closed ==> var p := PlayerIdFromQuery(query).value;
                          && (sessions, owners) == Register(old(sessions), old(owners), session, p)
                          && (p in old(actions.players.players) ==> actions.players.players == old(actions.players.players))
                          && (p !in old(actions.players.players) ==>
                                actions.players.players == old(actions.players.players)[p := NewPlayer(p, "Player_" + p)])
                          && out == Reply(session, InitFrame(State(), actions.registry, p, now))
                          && out[0].frame.StateInit?
    {
      var id := GetPlayerIdFromSession(query);
      if id.None? {
        return true, [];
      }
      var p := id.value;
      sessions := sessions[p := session];
      owners := owners[session := p];
      var _ := actions.players.GetOrCreatePlayer(p);
      closed := false;
      out := Reply(session, InitFrame(State(), actions.registry, p, now));
    }

    /** `onClose`: the session's player is unregistered and their action
        stopped. */
    method OnClose(session: SessionId)
      requires Valid()
      modifies this, actions
      ensures Valid()
      ensures owners == old(owners)
      ensures sessions == Unregister(old(sessions), old(owners), session)
      ensures session in old(owners) ==> actions.activeActions == old(actions.activeActions) - {old(owners)[session]}
      ensures session !in old(owners) ==> actions.activeActions == old(actions.activeActions)
      ensures actions.cursor == old(actions.cursor)
    {
      if session in owners {
        var p := owners[session];
        sessions := sessions - {p};
        actions.StopAction(p);
      }
    }

    /** `sendStateDelta`: dropped unless the player's session is open. */
    function SendStateDelta(open: set<SessionId>, playerId: string, xpDelta: map<string, int>,
                            inventoryDelta: map<string, int>, health: int, message: Option<string>)
      : (out: seq<Outgoing>)
      reads this
      ensures out != [] <==> playerId in sessions && sessions[playerId] in open
      ensures out != [] ==> out == [Outgoing(sessions[playerId], StateDelta(xpDelta, inventoryDelta, health, message))]
    {
      Deliver(sessions, open, playerId, StateDelta(xpDelta, inventoryDelta, health, message))
    }

    /** `sendCombatStart`: dropped unless the player's session is open. */
    function SendCombatStart(open: set<SessionId>, playerId: string, targetMob: string, warningMessage: Option<string>)
      : (out: seq<Outgoing>)
      reads this
      ensures out != [] <==> playerId in sessions && sessions[playerId] in open
      ensures out != [] ==> out == [Outgoing(sessions[playerId], CombatStart(targetMob, warningMessage))]
    {
      Deliver(sessions, open, playerId, CombatStart(targetMob, warningMessage))
    }

    /** `sendCombatEnd`: dropped unless the player's session is open. */
    function SendCombatEnd(open: set<SessionId>, playerId: string, message: Option<string>): (out: seq<Outgoing>)
      reads this
      ensures out != [] <==> playerId in sessions && sessions[playerId] in open
      ensures out != [] ==> out == [Outgoing(sessions[playerId], CombatEnd(message))]
    {
      Deliver(sessions, open, playerId, CombatEnd(message))
    }

    /** `sendAlert`: dropped unless the player's session is open. */
    function SendAlert(open: set<SessionId>, playerId: string, warningMessage: Option<string>): (out: seq<Outgoing>)
      reads this
      ensures out != [] <==> playerId in sessions && sessions[playerId] in open
      ensures out != [] ==> out == [Outgoing(sessions[playerId], Alert(warningMessage))]
    {
      Deliver(sessions, open, playerId, Alert(warningMessage))
    }

    /** `onMessage`: routes the message to its handler. */
    method OnMessage(session: SessionId, message: Inbound, now: int, open: set<SessionId>) returns (out: seq<Outgoing>)
      requires Valid()
      modifies actions, actions.inventory, locations
      ensures Valid()
      ensures actions.cursor == old(actions.cursor)
      ensures (State(), out) == MessageSpec(old(State()), actions.registry, sessions, open, session,
                                            if session in owners then Some(owners[session]) else None, message, now)
    {
      if session !in owners {
        return Reply(session, Error("Player ID not found"));
      }
      var p := owners[session];
      if message.Unparseable? {
        return Reply(session, Error("Error processing message: " + message.reason));
      }
      var fields := message.fields;
      if "type" !in fields {
        return Reply(session, Error("Missing 'type' field in message"));
      }
      match KindOf(fields["type"])
      case StartAction =>
        out := HandleStartAction(session, p, fields, now);
      case MoveLocation =>
        out := HandleMoveLocation(session, p, fields, now);
      case AttackTarget =>
        out := AttackCommand(State(), sessions, open, session, p, fields).1;
      case EquipItem =>
        out := HandleEquipItem(session, p, fields, now);
      case SellItem =>
        out := SellCommand(State(), sessions, open, session, p, fields).1;
      case UnknownType(t) =>
        out := Reply(session, Error("Unknown message type: " + t));
    }

    /** `handleStartAction`. */
    method HandleStartAction(session: SessionId, playerId: string, fields: map<string, string>, now: int)
      returns (out: seq<Outgoing>)
      requires Valid()
      modifies actions
      ensures Valid()
      ensures actions.cursor == old(actions.cursor)
      ensures (State(), out) == StartCommand(old(State()), actions.registry, session, playerId, fields, now)
    {
      if "actionId" !in fields {
        return Reply(session, Error("Missing 'actionId' field"));
      }
      var instanceId := if "instanceId" in fields then Some(fields["instanceId"]) else None;
      var r := actions.StartAction(playerId, fields["actionId"], instanceId, now);
      if r.Err? {
        return Reply(session, Error("Failed to start action: " + r.error.Message()));
      }
      out := Reply(session, InitFrame(State(), actions.registry, playerId, now));
    }

    /** `handleMoveLocation`. */
    method HandleMoveLocation(session: SessionId, playerId: string, fields: map<string, string>, now: int)
      returns (out: seq<Outgoing>)
      requires Valid()
      modifies actions, locations
      ensures Valid()
      ensures actions.cursor == old(actions.cursor)
      ensures (State(), out) == MoveCommand(old(State()), actions.registry, session, playerId, fields, now)
    {
      if "targetLocationId" !in fields {
        return Reply(session, Error("Missing 'targetLocationId' field"));
      }
      actions.StopAction(playerId);
      var r := locations.MoveToLocation(playerId, fields["targetLocationId"]);
      if r.Err? {
        return Reply(session, Error("Failed to move location: " + r.error.Message()));
      }
      out := Reply(session, InitFrame(State(), actions.registry, playerId, now));
    }

    /** `handleEquipItem`. */
    method HandleEquipItem(session: SessionId, playerId: string, fields: map<string, string>, now: int)
      returns (out: seq<Outgoing>)
      requires Valid()
      modifies actions.inventory
      ensures Valid()
      ensures (State(), out) == EquipCommand(old(State()), actions.registry, session, playerId, fields, now)
    {
      if "itemId" !in fields || "slot" !in fields {
        return Reply(session, Error("Missing 'itemId' or 'slot' field"));
      }
      var row := FirstInInventory(actions.inventory.GetInventory(playerId), fields["itemId"]);
      if row.None? {
        return Reply(session, Error("Item not found in inventory"));
      }
      var r := actions.inventory.EquipItem(actions.registry.items, playerId, row.value.id, fields["slot"]);
      if r.Err? {
        return Reply(session, Error("Failed to equip item: " + r.error.Message()));
      }
      out := Reply(session, InitFrame(State(), actions.registry, playerId, now));
    }
  }
}
