/**
 * The room's server functions: each looks the room up without creating it
 * (failing with "No such room"), then runs one room operation under the
 * room's lock. Renaming validates the name before anything else.
 *
 * A server function answers `Ok(())` once the room operation has run; the
 * outcome of the broadcast that follows it is never reported to the caller.
 */
module Api {
  import opened Common
  import opened Backend

  const EmptyName: string := "Has to be non-empty"
  const BadCharacter: string := "Allowed characters: a-z A-Z 0-9 _-"
  const NoSuchRoom: string := "No such room"

  /** The characters a display name may contain. */
  predicate IsNameChar(c: char) {
    '0' <= c <= '9' || 'a' <= c <= 'z' || 'A' <= c <= 'Z' || c == '-' || c == '_'
  }

  /** A name `check_username` accepts: non-empty, and made of allowed characters only. */
  predicate ValidUsername(s: string) {
    s != [] && forall i :: 0 <= i < |s| ==> IsNameChar(s[i])
  }

  /**
   * `check_username`: an empty name is refused first; otherwise the
   * characters are scanned in order and the first one outside the allowed set
   * refuses the name.
   */
  method CheckUsername(s: string) returns (r: Result<(), string>)
    ensures r.Ok? <==> ValidUsername(s)
    ensures s == [] ==> r == Err(EmptyName)
    ensures s != [] && r.Err? ==> r == Err(BadCharacter)
  {
    if s == [] {
      return Err(EmptyName);
    }
    for i := 0 to |s|
      invariant forall j :: 0 <= j < i ==> IsNameChar(s[j])
    {
      if !IsNameChar(s[i]) {
        return Err(BadCharacter);
      }
    }
    return Ok(());
  }

  /** `get_game` of the server functions: an unknown room is an error, and is not created. */
  method GetGame(server: ServerState, roomId: RoomId) returns (r: Result<Game, string>)
    ensures roomId in server.games ==> r == Ok(server.games[roomId])
    ensures roomId !in server.games ==> r == Err(NoSuchRoom)
  {
    var found := server.GetGame(roomId);
    match found
    case Some(g) => r := Ok(g);
    case None => r := Err(NoSuchRoom);
  }

  /** After one room was changed, every room of a valid registry is still valid. */
  lemma RegistryStaysValid(server: ServerState, g: Game)
    requires server.SeparateRooms()
    requires forall r :: r in server.games && server.games[r] != g ==> server.games[r].Valid()
    requires g.Valid()
    ensures server.Valid()
  {
  }

  /** `place_bet`: set the caller's bet in an existing room. */
  method PlaceBet(server: ServerState, roomId: RoomId, uid: Uid, card: Option<nat>, net: Transport)
    returns (r: Result<(), string>, passes: seq<Pass>)
    requires server.Valid()
    modifies server.games.Values
    ensures server.Valid()
    ensures roomId !in server.games ==> r == Err(NoSuchRoom) && passes == [] && unchanged(server.games.Values)
    ensures roomId in server.games ==> r == Ok(())
    ensures roomId in server.games ==>
      var g := server.games[roomId];
      && (uid !in old(g.players) ==> g.State() == old(g.State()) && passes == [])
      && (uid in old(g.players) ==> (g.State(), passes) == Broadcast(BetPlaced(old(g.State()), uid, card), net, 0))
    ensures forall o :: o in server.games && o != roomId ==> unchanged(server.games[o])
  {
    var found := GetGame(server, roomId);
    if found.Err? {
      return Err(found.error), [];
    }
    var g := found.value;
    passes := g.PlaceBet(uid, card, net);
    RegistryStaysValid(server, g);
    r := Ok(());
  }

  /** `reveal`: show every bet in an existing room. */
  method Reveal(server: ServerState, roomId: RoomId, net: Transport)
    returns (r: Result<(), string>, passes: seq<Pass>)
    requires server.Valid()
    modifies server.games.Values
    ensures server.Valid()
    ensures roomId !in server.games ==> r == Err(NoSuchRoom) && passes == [] && unchanged(server.games.Values)
    ensures roomId in server.games ==>
      var g := server.games[roomId];
      r == Ok(()) && (g.State(), passes) == Broadcast(Revealed(old(g.State())), net, 0)
    ensures forall o :: o in server.games && o != roomId ==> unchanged(server.games[o])
  {
    var found := GetGame(server, roomId);
    if found.Err? {
      return Err(found.error), [];
    }
    var g := found.value;
    passes := g.Reveal(net);
    RegistryStaysValid(server, g);
    r := Ok(());
  }

  /** `hide`: hide the round and clear every bet in an existing room. */
  method Hide(server: ServerState, roomId: RoomId, net: Transport)
    returns (r: Result<(), string>, passes: seq<Pass>)
    requires server.Valid()
    modifies server.games.Values
    ensures server.Valid()
    ensures roomId !in server.games ==> r == Err(NoSuchRoom) && passes == [] && unchanged(server.games.Values)
    ensures roomId in server.games ==>
      var g := server.games[roomId];
      r == Ok(()) && (g.State(), passes) == Broadcast(HiddenCleared(old(g.State())), net, 0)
    ensures forall o :: o in server.games && o != roomId ==> unchanged(server.games[o])
  {
    var found := GetGame(server, roomId);
    if found.Err? {
      return Err(found.error), [];
    }
    var g := found.value;
    passes := g.Hide(net);
    RegistryStaysValid(server, g);
    r := Ok(());
  }

  /**
   * `set_name`: the name is validated first, so an invalid name is refused
   * with the validation message whether or not the room exists; a valid name
   * then goes to the room like the other operations.
   */
  method SetName(server: ServerState, roomId: RoomId, uid: Uid, name: string, net: Transport)
    returns (r: Result<(), string>, passes: seq<Pass>)
    requires server.Valid()
    modifies server.games.Values
    ensures server.Valid()
    ensures !ValidUsername(name) ==>
      && r == Err(if name == [] then EmptyName else BadCharacter)
      && passes == [] && unchanged(server.games.Values)
    ensures ValidUsername(name) && roomId !in server.games ==>
      r == Err(NoSuchRoom) && passes == [] && unchanged(server.games.Values)
    ensures ValidUsername(name) && roomId in server.games ==>
      var g := server.games[roomId];
      && r == Ok(())
      && (uid !in old(g.players) ==> g.State() == old(g.State()) && passes == [])
      && (uid in old(g.players) ==> (g.State(), passes) == Broadcast(Renamed(old(g.State()), uid, name), net, 0))
    ensures forall o :: o in server.games && o != roomId ==> unchanged(server.games[o])
  {
    var checked := CheckUsername(name);
    if checked.Err? {
      return Err(checked.error), [];
    }
    var found := GetGame(server, roomId);
    if found.Err? {
      return Err(found.error), [];
    }
    var g := found.value;
    passes := g.SetName(uid, name, net);
    RegistryStaysValid(server, g);
    r := Ok(());
  }
}
