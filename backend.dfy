/**
 * The server side of one poker room (`GameInner`) and the registry of rooms
 * (`ServerState`).
 *
 * A room holds the card menu, the players keyed by user id and the `hidden`
 * flag. Every change is followed by a broadcast (`send_update`) that sends each
 * player a view of the room in which the other players' bets are masked while
 * the round is hidden; a player whose send fails is dropped and the whole
 * broadcast is redone until one pass has no failure.
 *
 * Transport is abstract: a socket is an opaque handle, closing it is recorded
 * in the room's `closed` log, and a `Transport` says, for each pass of a
 * broadcast and each player, whether that send succeeds.
 */
module Backend {
  import opened Common
  import opened Sequences
  import opened Protocol

  type Uid = nat
  type RoomId = nat

  /** The sending half of a player's socket; the room never looks inside it. */
  datatype Socket = Socket(id: nat)

  /** `net(pass, uid)`: does the send to `uid` in pass `pass` of a broadcast succeed? */
  type Transport = (nat, Uid) -> bool

  /** A connected player: current bet, socket and display name. */
  datatype Player = Player(card: Option<nat>, receiver: Socket, name: string)

  /** What a player's record looks like on the wire (the socket is not sent). */
  function ToPlayerState(p: Player): PlayerState {
    PlayerState(p.card, p.name)
  }

  /** The menu of a new room. */
  const DefaultCards: seq<nat> := [50, 100, 200, 300, 500, 800, 1300, 2100]

  /**
   * The state of a room. `players` is the player map and `order` its iteration
   * order (every key exactly once). `closed` lists, oldest first, the sockets
   * the room has closed.
   */
  datatype GameState = GameState(
    cards: seq<nat>,
    players: map<Uid, Player>,
    order: seq<Uid>,
    hidden: bool,
    closed: seq<Socket>)

  /** A fresh room: the default menu, nobody connected, bets hidden. */
  function DefaultState(): GameState {
    GameState(DefaultCards, map[], [], true, [])
  }

  ghost predicate StrictlyAscending(s: seq<nat>) {
    forall i, j :: 0 <= i < j < |s| ==> s[i] < s[j]
  }

  ghost predicate Distinct(s: seq<Uid>) {
    forall i, j :: 0 <= i < j < |s| ==> s[i] != s[j]
  }

  /** Every element of `s` is a key of `players`. */
  ghost predicate Listed(s: seq<Uid>, players: map<Uid, Player>) {
    forall i :: 0 <= i < |s| ==> s[i] in players
  }

  /** `order` lists every key of `keys` exactly once. */
  ghost predicate Enumerates(order: seq<Uid>, keys: set<Uid>) {
    && Distinct(order)
    && (forall i :: 0 <= i < |order| ==> order[i] in keys)
    && (forall k :: k in keys ==> k in order)
  }

  /** The room invariant: the menu is strictly ascending and `order` enumerates the players. */
  ghost predicate Wf(s: GameState) {
    StrictlyAscending(s.cards) && Enumerates(s.order, s.players.Keys)
  }

  lemma DefaultStateWf()
    ensures Wf(DefaultState())
  {
  }

  /** An enumeration has exactly as many entries as the set it enumerates. */
  lemma {:induction false} EnumeratesLength(order: seq<Uid>, keys: set<Uid>)
    requires Enumerates(order, keys)
    ensures |order| == |keys|
  {
    if order != [] {
      var n := |order| - 1;
      var x := order[n];
      forall k | k in keys - {x}
        ensures k in order[..n]
      {
        var i :| 0 <= i < |order| && order[i] == k;
        assert i != n;
      }
      EnumeratesLength(order[..n], keys - {x});
    }
  }

  // ---------------------------------------------------------------------------
  // The card menu

  function CardKey(card: nat): int {
    card
  }

  /** The menu after pushing `card`, `sort_unstable` and `dedup`. */
  function AddToMenu(cards: seq<nat>, card: nat): seq<nat> {
    Dedup(SortBy(cards + [card], CardKey))
  }

  /** A sorted sequence without equal neighbours is strictly ascending. */
  lemma SortedNoRepeatsAscending(r: seq<nat>)
    requires SortedBy(r, CardKey)
    requires forall i :: 0 <= i < |r| - 1 ==> r[i] != r[i + 1]
    ensures StrictlyAscending(r)
  {
    forall i, j | 0 <= i < j < |r|
      ensures r[i] < r[j]
    {
      assert CardKey(r[i]) <= CardKey(r[i + 1]);
      assert CardKey(r[i + 1]) <= CardKey(r[j]);
    }
  }

  /**
   * Adding a card always leaves a strictly ascending menu whose elements are
   * the old ones plus the new card, whatever order the old menu was in.
   */
  lemma AddToMenuSpec(cards: seq<nat>, card: nat)
    ensures StrictlyAscending(AddToMenu(cards, card))
    ensures forall x :: x in AddToMenu(cards, card) <==> x in cards || x == card
  {
    var pushed := cards + [card];
    var sorted := SortBy(pushed, CardKey);
    var r := Dedup(sorted);
    DedupSorted(sorted, CardKey);
    SortedNoRepeatsAscending(r);
    forall x
      ensures x in r <==> x in pushed
    {
      if x in r {
        var i :| 0 <= i < |r| && r[i] == x;
        assert r[i] in sorted;
        assert x in multiset(pushed);
      }
      if x in pushed {
        assert x in multiset(sorted);
        var i :| 0 <= i < |sorted| && sorted[i] == x;
        assert sorted[i] in r;
      }
    }
  }

  /** The menu after removing the first occurrence of `card`, if it is there. */
  function RemoveFromMenu(cards: seq<nat>, card: nat): seq<nat> {
    match Position(cards, card)
    case None => cards
    case Some(i) => cards[..i] + cards[i + 1..]
  }

  /**
   * Removing a card keeps a strictly ascending menu strictly ascending and
   * takes exactly that card out of it; an absent card leaves it as it was.
   */
  lemma RemoveFromMenuSpec(cards: seq<nat>, card: nat)
    requires StrictlyAscending(cards)
    ensures StrictlyAscending(RemoveFromMenu(cards, card))
    ensures forall x :: x in RemoveFromMenu(cards, card) <==> x in cards && x != card
    ensures card !in cards ==> RemoveFromMenu(cards, card) == cards
    ensures card in cards ==> |RemoveFromMenu(cards, card)| == |cards| - 1
  {
    var pos := Position(cards, card);
    if pos.Some? {
      RemoveAtAscending(cards, pos.value);
      RemoveAtMembers(cards, pos.value);
    }
  }

  /** Deleting one element of a strictly ascending menu keeps it strictly ascending. */
  lemma RemoveAtAscending(cards: seq<nat>, i: nat)
    requires StrictlyAscending(cards) && i < |cards|
    ensures StrictlyAscending(cards[..i] + cards[i + 1..])
  {
    var r := cards[..i] + cards[i + 1..];
    forall a, b | 0 <= a < b < |r|
      ensures r[a] < r[b]
    {
      var a' := if a < i then a else a + 1;
      var b' := if b < i then b else b + 1;
      assert r[a] == cards[a'] && r[b] == cards[b'];
    }
  }

  /** Deleting the element at `i` of a menu without repeats takes out exactly that card. */
  lemma RemoveAtMembers(cards: seq<nat>, i: nat)
    requires StrictlyAscending(cards) && i < |cards|
    ensures forall x :: x in cards[..i] + cards[i + 1..] <==> x in cards && x != cards[i]
  {
    var r := cards[..i] + cards[i + 1..];
    forall x
      ensures x in r <==> x in cards && x != cards[i]
    {
      if x in cards && x != cards[i] {
        var k :| 0 <= k < |cards| && cards[k] == x;
        if k < i { assert r[k] == x; } else { assert r[k - 1] == x; }
      }
      if x in r {
        var k :| 0 <= k < |r| && r[k] == x;
        var k' := if k < i then k else k + 1;
        assert cards[k'] == x && k' != i;
      }
    }
  }

  /** A maintenance operation on the menu. */
  datatype MenuEdit = Add(card: nat) | Remove(card: nat)

  /** The menu after the edits, applied first to last. */
  function ApplyEdits(cards: seq<nat>, edits: seq<MenuEdit>): seq<nat> {
    if edits == [] then cards
    else
      var n := |edits| - 1;
      var before := ApplyEdits(cards, edits[..n]);
      match edits[n]
      case Add(c) => AddToMenu(before, c)
      case Remove(c) => RemoveFromMenu(before, c)
  }

  /**
   * Starting from a strictly ascending menu (the default one is), any
   * sequence of additions and removals leaves it strictly ascending.
   */
  lemma {:induction false} EditsKeepMenuAscending(cards: seq<nat>, edits: seq<MenuEdit>)
    requires StrictlyAscending(cards)
    ensures StrictlyAscending(ApplyEdits(cards, edits))
  {
    if edits != [] {
      var n := |edits| - 1;
      EditsKeepMenuAscending(cards, edits[..n]);
      match edits[n]
      case Add(c) => AddToMenuSpec(ApplyEdits(cards, edits[..n]), c);
      case Remove(c) => RemoveFromMenuSpec(ApplyEdits(cards, edits[..n]), c);
    }
  }

  // ---------------------------------------------------------------------------
  // State transitions (each is followed by a broadcast)

  /**
   * `new_player`: the player is (re)registered with no bet and the generated
   * name; a previous connection under the same id is replaced and its socket
   * closed. A new id is appended to the iteration order, a replaced one keeps
   * its place.
   */
  function Joined(s: GameState, uid: Uid, receiver: Socket, name: string): GameState {
    var entry := Player(None, receiver, name);
    if uid in s.players then
      s.(players := s.players[uid := entry], closed := s.closed + [s.players[uid].receiver])
    else
      s.(players := s.players[uid := entry], order := s.order + [uid])
  }

  /**
   * After a join there is exactly one entry for the user, with no bet and the
   * given name; every other player is untouched; a previous connection of the
   * same user has its socket closed, and the menu and flag do not change.
   */
  lemma JoinedSpec(s: GameState, uid: Uid, receiver: Socket, name: string)
    requires Wf(s)
    ensures var r := Joined(s, uid, receiver, name);
      && Wf(r)
      && r.players[uid] == Player(None, receiver, name)
      && (forall i, j :: 0 <= i < j < |r.order| && r.order[i] == uid ==> r.order[j] != uid)
      && (forall k :: k in r.players <==> k in s.players || k == uid)
      && (forall k :: k in s.players && k != uid ==> r.players[k] == s.players[k])
      && r.cards == s.cards && r.hidden == s.hidden
      && r.closed == (if uid in s.players then s.closed + [s.players[uid].receiver] else s.closed)
  {
  }

  /** `add_new_card`. */
  function CardAdded(s: GameState, card: nat): GameState {
    s.(cards := AddToMenu(s.cards, card))
  }

  /** `remove_card` (the room does not broadcast when the card is absent). */
  function CardRemoved(s: GameState, card: nat): GameState {
    s.(cards := RemoveFromMenu(s.cards, card))
  }

  /** `set_name` on a connected player. */
  function Renamed(s: GameState, uid: Uid, name: string): GameState
    requires uid in s.players
  {
    s.(players := s.players[uid := s.players[uid].(name := name)])
  }

  /** `place_bet` on a connected player; the value is not checked against the menu. */
  function BetPlaced(s: GameState, uid: Uid, card: Option<nat>): GameState
    requires uid in s.players
  {
    s.(players := s.players[uid := s.players[uid].(card := card)])
  }

  /**
   * Renaming or betting changes that one field of that one player and nothing
   * else in the room.
   */
  lemma PlayerUpdateSpec(s: GameState, uid: Uid, name: string, card: Option<nat>)
    requires Wf(s) && uid in s.players
    ensures var r := Renamed(s, uid, name);
      && Wf(r) && r.players.Keys == s.players.Keys && r.order == s.order
      && r.players[uid] == Player(s.players[uid].card, s.players[uid].receiver, name)
      && (forall k :: k in s.players && k != uid ==> r.players[k] == s.players[k])
      && r.cards == s.cards && r.hidden == s.hidden && r.closed == s.closed
    ensures var r := BetPlaced(s, uid, card);
      && Wf(r) && r.players.Keys == s.players.Keys && r.order == s.order
      && r.players[uid] == Player(card, s.players[uid].receiver, s.players[uid].name)
      && (forall k :: k in s.players && k != uid ==> r.players[k] == s.players[k])
      && r.cards == s.cards && r.hidden == s.hidden && r.closed == s.closed
  {
  }

  /**
   * Betting and then withdrawing the bet is the same as withdrawing it
   * directly; for a player who had no bet, it leaves the room as it was.
   */
  lemma BetRoundTrip(s: GameState, uid: Uid, v: nat)
    requires uid in s.players
    ensures BetPlaced(BetPlaced(s, uid, Some(v)), uid, None) == BetPlaced(s, uid, None)
    ensures s.players[uid].card.None? ==> BetPlaced(BetPlaced(s, uid, Some(v)), uid, None) == s
  {
    if s.players[uid].card.None? {
      assert s.players[uid := s.players[uid].(card := None)] == s.players;
    }
  }

  /** `reveal`. */
  function Revealed(s: GameState): GameState {
    s.(hidden := false)
  }

  /** `hide`: the round is hidden again and every bet is cleared. */
  function HiddenCleared(s: GameState): GameState {
    s.(hidden := true, players := map u | u in s.players :: s.players[u].(card := None))
  }

  /**
   * Hiding clears every bet, keeps every player with the same name and socket,
   * and hiding twice is the same as hiding once.
   */
  lemma HideSpec(s: GameState)
    requires Wf(s)
    ensures var r := HiddenCleared(s);
      && Wf(r) && r.hidden && r.order == s.order && r.players.Keys == s.players.Keys
      && (forall k :: k in r.players ==> r.players[k] == Player(None, s.players[k].receiver, s.players[k].name))
      && r.cards == s.cards && r.closed == s.closed
    ensures HiddenCleared(HiddenCleared(s)) == HiddenCleared(s)
  {
    var r := HiddenCleared(s);
    var rr := HiddenCleared(r);
    assert rr.players == r.players;
  }

  /** Revealing only turns the flag off. */
  lemma RevealSpec(s: GameState)
    requires Wf(s)
    ensures Wf(Revealed(s))
    ensures Revealed(s) == GameState(s.cards, s.players, s.order, false, s.closed)
  {
  }

  // ---------------------------------------------------------------------------
  // The view each player is sent

  /**
   * Another player's record as a recipient sees it: while hidden, a bet is
   * replaced by the marker 0 and no bet stays no bet.
   */
  function Redact(p: Player, hidden: bool): PlayerState {
    var st := ToPlayerState(p);
    if hidden then
      st.(card := match st.card case None => None case Some(_) => Some(0))
    else
      st
  }

  /** The redacted records of the players listed in `order`, skipping `self`, in that order. */
  function Others(players: map<Uid, Player>, order: seq<Uid>, hidden: bool, self: Uid): seq<PlayerState>
    requires Listed(order, players)
  {
    if order == [] then []
    else
      var n := |order| - 1;
      Others(players, order[..n], hidden, self)
        + (if order[n] == self then [] else [Redact(players[order[n]], hidden)])
  }

  /** The view sent to `self`. */
  function ViewFor(s: GameState, self: Uid): PlayerGameState
    requires self in s.players && Listed(s.order, s.players)
  {
    PlayerGameState(
      Others(s.players, s.order, s.hidden, self),
      s.cards,
      ToPlayerState(s.players[self]),
      s.hidden)
  }

  /** `order` without `u`. */
  function RemoveUid(order: seq<Uid>, u: Uid): (r: seq<Uid>)
    ensures forall i :: 0 <= i < |r| ==> r[i] in order && r[i] != u
    ensures forall i :: 0 <= i < |order| && order[i] != u ==> order[i] in r
  {
    if order == [] then []
    else
      var n := |order| - 1;
      assert order == order[..n] + [order[n]];
      RemoveUid(order[..n], u) + (if order[n] == u then [] else [order[n]])
  }

  /** Removing a key from an enumeration enumerates the remaining keys. */
  lemma {:induction false} RemoveUidEnumerates(order: seq<Uid>, keys: set<Uid>, u: Uid)
    requires Enumerates(order, keys)
    ensures Enumerates(RemoveUid(order, u), keys - {u})
  {
    if order != [] {
      var n := |order| - 1;
      var x := order[n];
      forall k | k in keys - {x}
        ensures k in order[..n]
      {
        var i :| 0 <= i < |order| && order[i] == k;
        assert i != n;
      }
      RemoveUidEnumerates(order[..n], keys - {x}, u);
      var r := RemoveUid(order[..n], u);
      forall i | 0 <= i < |r|
        ensures r[i] != x
      {
        var j :| 0 <= j < n && order[..n][j] == r[i];
      }
    }
  }

  /** The others in a view are exactly the redacted records of `order` without `self`, in order. */
  lemma {:induction false} OthersSpec(players: map<Uid, Player>, order: seq<Uid>, hidden: bool, self: Uid)
    requires Listed(order, players)
    ensures var o := Others(players, order, hidden, self); var rest := RemoveUid(order, self);
      && |o| == |rest|
      && forall i :: 0 <= i < |o| ==> rest[i] in players && o[i] == Redact(players[rest[i]], hidden)
  {
    if order != [] {
      OthersSpec(players, order[..|order| - 1], hidden, self);
    }
  }

  /**
   * The redaction rule. The view sent to `self` carries `self`'s own record
   * unredacted, the room's menu and flag, and one entry per other player (in
   * iteration order, `self` left out): the other's name, and their bet while
   * revealed, or only whether they bet (as 0) while hidden.
   */
  lemma ViewSpec(s: GameState, self: Uid)
    requires Wf(s) && self in s.players
    ensures var v := ViewFor(s, self); var rest := RemoveUid(s.order, self);
      && v.selfState == PlayerState(s.players[self].card, s.players[self].name)
      && v.cards == s.cards && v.hidden == s.hidden
      && Enumerates(rest, s.players.Keys - {self})
      && |v.players| == |rest| == |s.players| - 1
      && forall i :: 0 <= i < |v.players| ==>
        && rest[i] in s.players
        && v.players[i].name == s.players[rest[i]].name
        && (v.players[i].card.None? <==> s.players[rest[i]].card.None?)
        && (s.hidden && s.players[rest[i]].card.Some? ==> v.players[i].card == Some(0))
        && (!s.hidden ==> v.players[i].card == s.players[rest[i]].card)
  {
    OthersSpec(s.players, s.order, s.hidden, self);
    RemoveUidEnumerates(s.order, s.players.Keys, self);
    EnumeratesLength(RemoveUid(s.order, self), s.players.Keys - {self});
  }

  // ---------------------------------------------------------------------------
  // Broadcast (`send_update`)

  /** One successful send: `view` reached player `to`. */
  datatype Delivery = Delivery(to: Uid, view: PlayerGameState)

  /** The successful sends of one pass, in iteration order. */
  type Pass = seq<Delivery>

  /** The players of `order` whose send fails in pass `pass`, in iteration order. */
  function Failed(order: seq<Uid>, net: Transport, pass: nat): (r: seq<Uid>)
    ensures forall i :: 0 <= i < |r| ==> r[i] in order && !net(pass, r[i])
    ensures forall i :: 0 <= i < |order| && !net(pass, order[i]) ==> order[i] in r
  {
    if order == [] then []
    else
      var n := |order| - 1;
      assert order == order[..n] + [order[n]];
      Failed(order[..n], net, pass) + (if net(pass, order[n]) then [] else [order[n]])
  }

  lemma {:induction false} FailedDistinct(order: seq<Uid>, net: Transport, pass: nat)
    requires Distinct(order)
    ensures Distinct(Failed(order, net, pass))
  {
    if order != [] {
      var n := |order| - 1;
      FailedDistinct(order[..n], net, pass);
      var r := Failed(order[..n], net, pass);
      forall i | 0 <= i < |r|
        ensures r[i] != order[n]
      {
        var j :| 0 <= j < n && order[..n][j] == r[i];
      }
    }
  }

  /** The views that reach the players of `prefix` in pass `pass`. */
  function Delivered(s: GameState, prefix: seq<Uid>, net: Transport, pass: nat): Pass
    requires Listed(prefix, s.players) && Listed(s.order, s.players)
  {
    if prefix == [] then []
    else
      var n := |prefix| - 1;
      var u := prefix[n];
      Delivered(s, prefix[..n], net, pass) + (if net(pass, u) then [Delivery(u, ViewFor(s, u))] else [])
  }

  /** Every player of `prefix` receives their view, in order. */
  function AllViews(s: GameState, prefix: seq<Uid>): Pass
    requires Listed(prefix, s.players) && Listed(s.order, s.players)
  {
    if prefix == [] then []
    else
      var n := |prefix| - 1;
      AllViews(s, prefix[..n]) + [Delivery(prefix[n], ViewFor(s, prefix[n]))]
  }

  /** A pass in which every player of the room receives their view. */
  function FullPass(s: GameState): Pass
    requires Listed(s.order, s.players)
  {
    AllViews(s, s.order)
  }

  /** In a full pass the `i`-th send goes to the `i`-th player and carries that player's view. */
  lemma {:induction false} AllViewsSpec(s: GameState, prefix: seq<Uid>)
    requires Listed(prefix, s.players) && Listed(s.order, s.players)
    ensures |AllViews(s, prefix)| == |prefix|
    ensures forall i :: 0 <= i < |prefix| ==> AllViews(s, prefix)[i] == Delivery(prefix[i], ViewFor(s, prefix[i]))
  {
    if prefix != [] {
      AllViewsSpec(s, prefix[..|prefix| - 1]);
    }
  }

  /** A pass without failures delivers every player's view. */
  lemma {:induction false} DeliveredAll(s: GameState, prefix: seq<Uid>, net: Transport, pass: nat)
    requires Listed(prefix, s.players) && Listed(s.order, s.players)
    requires Failed(prefix, net, pass) == []
    ensures Delivered(s, prefix, net, pass) == AllViews(s, prefix)
  {
    if prefix != [] {
      var n := |prefix| - 1;
      assert prefix[n] in prefix;
      assert Failed(prefix[..n], net, pass) == [];
      DeliveredAll(s, prefix[..n], net, pass);
    }
  }

  /** The sockets of the players `ds`, in that order. */
  function Sockets(players: map<Uid, Player>, ds: seq<Uid>): seq<Socket>
    requires Listed(ds, players)
  {
    if ds == [] then []
    else
      var n := |ds| - 1;
      Sockets(players, ds[..n]) + [players[ds[n]].receiver]
  }

  /** `players.remove(&uid)` and closing the removed player's socket. */
  function DropOne(s: GameState, u: Uid): GameState {
    if u in s.players then
      s.(players := s.players - {u}, order := RemoveUid(s.order, u), closed := s.closed + [s.players[u].receiver])
    else
      s
  }

  /** Dropping the players `ds` one after the other. */
  function DropAll(s: GameState, ds: seq<Uid>): GameState {
    if ds == [] then s else DropOne(DropAll(s, ds[..|ds| - 1]), ds[|ds| - 1])
  }

  /** Dropping players removes exactly them and leaves everything else as it was. */
  lemma {:induction false} DropAllKeeps(s: GameState, ds: seq<Uid>)
    ensures var r := DropAll(s, ds);
      && r.cards == s.cards && r.hidden == s.hidden
      && (forall k :: k in r.players ==> k in s.players && k !in ds && r.players[k] == s.players[k])
      && (forall k :: k in s.players && k !in ds ==> k in r.players)
  {
    if ds != [] {
      DropAllKeeps(s, ds[..|ds| - 1]);
      assert forall k :: k in ds <==> k in ds[..|ds| - 1] || k == ds[|ds| - 1];
    }
  }

  /**
   * Dropping distinct connected players keeps the iteration order an
   * enumeration, shrinks the room by their number, and closes exactly their
   * sockets, in that order.
   */
  lemma DropAllShrinks(s: GameState, ds: seq<Uid>)
    requires Enumerates(s.order, s.players.Keys)
    requires Distinct(ds) && Listed(ds, s.players)
    ensures var r := DropAll(s, ds);
      && Enumerates(r.order, r.players.Keys)
      && |r.players| == |s.players| - |ds|
      && r.closed == s.closed + Sockets(s.players, ds)
  {
    DropAllEnumerates(s, ds);
    DropAllCloses(s, ds);
  }

  /** Dropping distinct players shrinks the room by their number and keeps the order an enumeration. */
  lemma {:induction false} DropAllEnumerates(s: GameState, ds: seq<Uid>)
    requires Enumerates(s.order, s.players.Keys)
    requires Distinct(ds) && Listed(ds, s.players)
    ensures var r := DropAll(s, ds);
      && Enumerates(r.order, r.players.Keys)
      && |r.players| == |s.players| - |ds|
  {
    if ds != [] {
      var n := |ds| - 1;
      var d := ds[n];
      DropAllEnumerates(s, ds[..n]);
      DropAllKeeps(s, ds[..n]);
      var r' := DropAll(s, ds[..n]);
      assert d !in ds[..n];
      assert d in r'.players;
      RemoveUidEnumerates(r'.order, r'.players.Keys, d);
      assert (r'.players - {d}).Keys == r'.players.Keys - {d};
    }
  }

  /** Dropping distinct players closes exactly their sockets, in order. */
  lemma {:induction false} DropAllCloses(s: GameState, ds: seq<Uid>)
    requires Distinct(ds) && Listed(ds, s.players)
    ensures DropAll(s, ds).closed == s.closed + Sockets(s.players, ds)
  {
    if ds != [] {
      var n := |ds| - 1;
      var d := ds[n];
      DropAllCloses(s, ds[..n]);
      DropAllKeeps(s, ds[..n]);
      var r' := DropAll(s, ds[..n]);
      assert d !in ds[..n];
      assert d in r'.players && r'.players[d] == s.players[d];
    }
  }

  /**
   * The broadcast: send every player their view; if some sends failed, drop
   * those players and start over with the rest. Each pass that has failures
   * removes at least one player, so the player count bounds the passes.
   * Returns the room once a pass has no failure, and the sends of every pass.
   */
  function Broadcast(s: GameState, net: Transport, pass: nat): (GameState, seq<Pass>)
    requires Enumerates(s.order, s.players.Keys)
    decreases |s.players|
  {
    var sent := Delivered(s, s.order, net, pass);
    var failed := Failed(s.order, net, pass);
    if failed == [] then (s, [sent])
    else
      FailedDistinct(s.order, net, pass);
      DropAllShrinks(s, failed);
      var next := Broadcast(DropAll(s, failed), net, pass + 1);
      (next.0, [sent] + next.1)
  }

  lemma ConcatAssoc<T>(a: seq<T>, b: seq<T>, c: seq<T>)
    ensures (a + b) + c == a + (b + c)
  {
  }

  /** One step of the broadcast: a clean pass ends it, otherwise it goes on without the failed players. */
  lemma BroadcastUnfold(s: GameState, net: Transport, pass: nat)
    requires Enumerates(s.order, s.players.Keys)
    ensures var failed := Failed(s.order, net, pass);
      && (failed == [] ==> Broadcast(s, net, pass) == (s, [Delivered(s, s.order, net, pass)]))
      && (failed != [] ==>
        && Enumerates(DropAll(s, failed).order, DropAll(s, failed).players.Keys)
        && |DropAll(s, failed).players| < |s.players|
        && Broadcast(s, net, pass).0 == Broadcast(DropAll(s, failed), net, pass + 1).0
        && Broadcast(s, net, pass).1 == [Delivered(s, s.order, net, pass)] + Broadcast(DropAll(s, failed), net, pass + 1).1)
  {
    var failed := Failed(s.order, net, pass);
    if failed != [] {
      FailedDistinct(s.order, net, pass);
      DropAllShrinks(s, failed);
    }
  }

  /**
   * A broadcast only removes players: the remaining ones are old players with
   * unchanged records, and the menu and flag are unchanged.
   */
  lemma {:induction false} BroadcastKeeps(s: GameState, net: Transport, pass: nat)
    requires Enumerates(s.order, s.players.Keys)
    decreases |s.players|
    ensures var t := Broadcast(s, net, pass).0;
      && Enumerates(t.order, t.players.Keys)
      && t.cards == s.cards && t.hidden == s.hidden
      && (forall k :: k in t.players ==> k in s.players && t.players[k] == s.players[k])
  {
    var failed := Failed(s.order, net, pass);
    BroadcastUnfold(s, net, pass);
    if failed != [] {
      DropAllKeeps(s, failed);
      BroadcastKeeps(DropAll(s, failed), net, pass + 1);
    }
  }

  /** A broadcast never drops a player whose sends all succeed. */
  lemma {:induction false} BroadcastKeepsReliable(s: GameState, net: Transport, pass: nat, k: Uid)
    requires Enumerates(s.order, s.players.Keys)
    requires k in s.players
    requires forall p :: pass <= p ==> net(p, k)
    decreases |s.players|
    ensures k in Broadcast(s, net, pass).0.players
  {
    var failed := Failed(s.order, net, pass);
    BroadcastUnfold(s, net, pass);
    if failed != [] {
      assert k !in failed by {
        assert net(pass, k);
      }
      DropAllKeeps(s, failed);
      BroadcastKeepsReliable(DropAll(s, failed), net, pass + 1, k);
    }
  }

  /**
   * Termination, and what the caller is left with: a broadcast has at most
   * one pass per player plus one, and its last pass delivered to every
   * remaining player the view of the room as it is left.
   */
  lemma {:induction false} BroadcastSettles(s: GameState, net: Transport, pass: nat)
    requires Enumerates(s.order, s.players.Keys)
    decreases |s.players|
    ensures var r := Broadcast(s, net, pass);
      && Enumerates(r.0.order, r.0.players.Keys)
      && |r.0.players| <= |s.players|
      && 1 <= |r.1| <= |s.players| + 1
      && r.1[|r.1| - 1] == FullPass(r.0)
  {
    var failed := Failed(s.order, net, pass);
    if failed == [] {
      DeliveredAll(s, s.order, net, pass);
    } else {
      FailedDistinct(s.order, net, pass);
      DropAllShrinks(s, failed);
      BroadcastSettles(DropAll(s, failed), net, pass + 1);
    }
  }

  /** A broadcast only appends to the closed log, one entry per dropped player. */
  lemma BroadcastClosedLog(s: GameState, net: Transport, pass: nat)
    requires Enumerates(s.order, s.players.Keys)
    ensures var t := Broadcast(s, net, pass).0;
      && |t.players| <= |s.players|
      && |t.closed| == |s.closed| + |s.players| - |t.players|
      && t.closed[..|s.closed|] == s.closed
  {
    BroadcastClosedCount(s, net, pass);
    BroadcastClosedPrefix(s, net, pass);
  }

  /** Every player a broadcast drops adds one socket to the closed log. */
  lemma {:induction false} BroadcastClosedCount(s: GameState, net: Transport, pass: nat)
    requires Enumerates(s.order, s.players.Keys)
    decreases |s.players|
    ensures var t := Broadcast(s, net, pass).0;
      |t.closed| + |t.players| == |s.closed| + |s.players|
  {
    var failed := Failed(s.order, net, pass);
    BroadcastUnfold(s, net, pass);
    if failed != [] {
      FailedDistinct(s.order, net, pass);
      DropAllShrinks(s, failed);
      SocketsSpec(s.players, failed);
      BroadcastClosedCount(DropAll(s, failed), net, pass + 1);
    }
  }

  /** A broadcast keeps the closed log it started with as a prefix. */
  lemma {:induction false} BroadcastClosedPrefix(s: GameState, net: Transport, pass: nat)
    requires Enumerates(s.order, s.players.Keys)
    decreases |s.players|
    ensures var t := Broadcast(s, net, pass).0;
      |s.closed| <= |t.closed| && t.closed[..|s.closed|] == s.closed
  {
    var failed := Failed(s.order, net, pass);
    BroadcastUnfold(s, net, pass);
    if failed != [] {
      FailedDistinct(s.order, net, pass);
      DropAllCloses(s, failed);
      var d := DropAll(s, failed);
      BroadcastClosedPrefix(d, net, pass + 1);
      var t := Broadcast(d, net, pass + 1).0;
      assert t.closed[..|s.closed|] == t.closed[..|d.closed|][..|s.closed|];
    }
  }

  /** A broadcast closes the socket of every player it drops. */
  lemma {:induction false} BroadcastClosesDropped(s: GameState, net: Transport, pass: nat)
    requires Enumerates(s.order, s.players.Keys)
    decreases |s.players|
    ensures var t := Broadcast(s, net, pass).0;
      && |s.closed| <= |t.closed|
      && forall k :: k in s.players && k !in t.players ==> s.players[k].receiver in t.closed[|s.closed|..]
  {
    BroadcastClosedLog(s, net, pass);
    var failed := Failed(s.order, net, pass);
    if failed != [] {
      FailedDistinct(s.order, net, pass);
      DropAllShrinks(s, failed);
      DropAllKeeps(s, failed);
      var d := DropAll(s, failed);
      BroadcastClosesDropped(d, net, pass + 1);
      BroadcastClosedLog(d, net, pass + 1);
      var t := Broadcast(d, net, pass + 1).0;
      forall k | k in s.players && k !in t.players
        ensures s.players[k].receiver in t.closed[|s.closed|..]
      {
        if k in d.players {
          LaterEntry(s.closed, d.closed, t.closed, d.players[k].receiver);
        } else {
          SocketOfDropped(s.players, failed, k);
          EarlierEntry(s.closed, Sockets(s.players, failed), t.closed, s.players[k].receiver);
        }
      }
    }
  }

  /** An entry after position |b| of `c` is also after position |a| <= |b|. */
  lemma LaterEntry(a: seq<Socket>, b: seq<Socket>, c: seq<Socket>, x: Socket)
    requires |a| <= |b| <= |c|
    requires x in c[|b|..]
    ensures x in c[|a|..]
  {
    var i :| |b| <= i < |c| && c[i] == x;
    assert c[|a|..][i - |a|] == x;
  }

  /** An entry of `e` in a log that starts with `a + e` is after position |a|. */
  lemma EarlierEntry(a: seq<Socket>, e: seq<Socket>, c: seq<Socket>, x: Socket)
    requires |a + e| <= |c| && c[..|a + e|] == a + e
    requires x in e
    ensures x in c[|a|..]
  {
    var i :| 0 <= i < |e| && e[i] == x;
    assert (a + e)[|a| + i] == x;
    assert c[|a|..][i] == x;
  }

  lemma {:induction false} SocketOfDropped(players: map<Uid, Player>, ds: seq<Uid>, k: Uid)
    requires Listed(ds, players) && k in ds
    ensures k in players && players[k].receiver in Sockets(players, ds)
  {
    var n := |ds| - 1;
    if ds[n] != k {
      assert k in ds[..n];
      SocketOfDropped(players, ds[..n], k);
    }
  }

  /** A pass has no failures exactly when every player's send in it succeeds. */
  lemma {:induction false} FailedNone(order: seq<Uid>, net: Transport, pass: nat)
    ensures Failed(order, net, pass) == [] <==> forall i :: 0 <= i < |order| ==> net(pass, order[i])
  {
    if order != [] {
      FailedNone(order[..|order| - 1], net, pass);
    }
  }

  lemma {:induction false} SocketsSpec(players: map<Uid, Player>, ds: seq<Uid>)
    requires Listed(ds, players)
    ensures |Sockets(players, ds)| == |ds|
    ensures forall i :: 0 <= i < |ds| ==> Sockets(players, ds)[i] == players[ds[i]].receiver
  {
    if ds != [] {
      SocketsSpec(players, ds[..|ds| - 1]);
    }
  }

  /** When every send of the first pass succeeds, the broadcast is that one pass and changes nothing. */
  lemma BroadcastAllDelivered(s: GameState, net: Transport, pass: nat)
    requires Enumerates(s.order, s.players.Keys)
    requires forall k :: k in s.players ==> net(pass, k)
    ensures Broadcast(s, net, pass) == (s, [FullPass(s)])
  {
    FailedNone(s.order, net, pass);
    DeliveredAll(s, s.order, net, pass);
  }

  /**
   * One failed pass of `send_update` keeps the loop's invariant: the room
   * without the failed players is well formed, smaller, and the remaining
   * passes from it complete the same broadcast.
   */
  lemma SendStep(before: GameState, net: Transport, pass: nat, done: seq<Pass>,
                 target: (GameState, seq<Pass>))
    requires Wf(before)
    requires Failed(before.order, net, pass) != []
    requires Broadcast(before, net, pass).0 == target.0
    requires done + Broadcast(before, net, pass).1 == target.1
    ensures Wf(DropAll(before, Failed(before.order, net, pass)))
    ensures |DropAll(before, Failed(before.order, net, pass)).players| < |before.players|
    ensures Broadcast(DropAll(before, Failed(before.order, net, pass)), net, pass + 1).0 == target.0
    ensures (done + [Delivered(before, before.order, net, pass)])
              + Broadcast(DropAll(before, Failed(before.order, net, pass)), net, pass + 1).1
            == target.1
  {
    var failed := Failed(before.order, net, pass);
    var sent := Delivered(before, before.order, net, pass);
    BroadcastUnfold(before, net, pass);
    DropAllKeeps(before, failed);
    ConcatAssoc(done, [sent], Broadcast(DropAll(before, failed), net, pass + 1).1);
  }

  // ---------------------------------------------------------------------------
  // The room object

  /** `GameInner`: one room, changed in place under the room's lock. */
  class Game {
    var cards: seq<nat>
    var players: map<Uid, Player>
    var order: seq<Uid>
    var hidden: bool
    var closed: seq<Socket>

    function State(): GameState
      reads this
    {
      GameState(cards, players, order, hidden, closed)
    }

    ghost predicate Valid()
      reads this
    {
      Wf(State())
    }

    /** `GameInner::default`. */
    constructor ()
      ensures State() == DefaultState()
      ensures Valid()
    {
      cards := DefaultCards;
      players := map[];
      order := [];
      hidden := true;
      closed := [];
      new;
      DefaultStateWf();
    }

    /** Builds the view sent to `self` (the body of the outer loop of `send_update`). */
    method BuildView(self: Uid) returns (v: PlayerGameState)
      requires Valid() && self in players
      ensures v == ViewFor(State(), self)
    {
      var others: seq<PlayerState> := [];
      var i := 0;
      while i < |order|
        invariant 0 <= i <= |order|
        invariant others == Others(players, order[..i], hidden, self)
      {
        var u := order[i];
        assert order[..i + 1] == order[..i] + [u];
        if u != self {
          var st := ToPlayerState(players[u]);
          if hidden {
            st := st.(card := match st.card case None => None case Some(_) => Some(0));
          }
          others := others + [st];
        }
        i := i + 1;
      }
      assert order[..|order|] == order;
      v := PlayerGameState(others, cards, ToPlayerState(players[self]), hidden);
    }

    /**
     * One pass of `send_update`: build and send every player's view in
     * iteration order, collecting the players whose send failed.
     */
    method SendPass(net: Transport, pass: nat) returns (sent: Pass, disconnected: seq<Uid>)
      requires Valid()
      ensures sent == Delivered(State(), order, net, pass)
      ensures disconnected == Failed(order, net, pass)
    {
      sent := [];
      disconnected := [];
      var i := 0;
      while i < |order|
        invariant 0 <= i <= |order|
        invariant sent == Delivered(State(), order[..i], net, pass)
        invariant disconnected == Failed(order[..i], net, pass)
      {
        var u := order[i];
        assert order[..i + 1] == order[..i] + [u];
        var view := BuildView(u);
        if net(pass, u) {
          sent := sent + [Delivery(u, view)];
        } else {
          disconnected := disconnected + [u];
        }
        i := i + 1;
      }
      assert order[..|order|] == order;
    }

    /** Removes the players `disconnected` and closes their sockets (end of a failed pass). */
    method DropPlayers(disconnected: seq<Uid>)
      modifies this
      ensures State() == DropAll(old(State()), disconnected)
    {
      var j := 0;
      while j < |disconnected|
        invariant 0 <= j <= |disconnected|
        invariant State() == DropAll(old(State()), disconnected[..j])
      {
        var u := disconnected[j];
        assert disconnected[..j + 1][..j] == disconnected[..j];
        if u in players {
          closed := closed + [players[u].receiver];
          players := players - {u};
          order := RemoveUid(order, u);
        }
        j := j + 1;
      }
      assert disconnected[..|disconnected|] == disconnected;
    }

    /**
     * `send_update`: repeat passes over all players until one has no failed
     * send, dropping the players whose send failed after each pass.
     */
    method SendUpdate(net: Transport) returns (passes: seq<Pass>)
      requires Valid()
      modifies this
      ensures Valid()
      ensures (State(), passes) == Broadcast(old(State()), net, 0)
    {
      ghost var target := Broadcast(State(), net, 0);
      var pass: nat := 0;
      passes := [];
      while true
        invariant Valid()
        invariant Broadcast(State(), net, pass).0 == target.0
        invariant passes + Broadcast(State(), net, pass).1 == target.1
        decreases |players|
      {
        var sent, disconnected := SendPass(net, pass);
        ghost var before := State();
        ghost var rest := Broadcast(before, net, pass);
        ghost var done := passes;
        passes := passes + [sent];
        if disconnected == [] {
          assert rest == (before, [sent]) by {
            BroadcastUnfold(before, net, pass);
          }
          break;
        }
        SendStep(before, net, pass, done, target);
        DropPlayers(disconnected);
        pass := pass + 1;
      }
    }

    /** `new_player`. */
    method NewPlayer(uid: Uid, receiver: Socket, nickname: Uid -> string, net: Transport)
      returns (passes: seq<Pass>)
      requires Valid()
      modifies this
      ensures Valid()
      ensures (State(), passes) == Broadcast(Joined(old(State()), uid, receiver, nickname(uid)), net, 0)
    {
      var state := Player(None, receiver, nickname(uid));
      ghost var joined := Joined(State(), uid, receiver, nickname(uid));
      assert Wf(joined) by {
        JoinedSpec(State(), uid, receiver, nickname(uid));
      }
      if uid in players {
        var previous := players[uid];
        players := players[uid := state];
        closed := closed + [previous.receiver];
      } else {
        players := players[uid := state];
        order := order + [uid];
      }
      assert State() == joined;
      passes := SendUpdate(net);
    }

    /** `add_new_card`: push, sort, dedup, broadcast. */
    method AddNewCard(card: nat, net: Transport) returns (passes: seq<Pass>)
      requires Valid()
      modifies this
      ensures Valid()
      ensures (State(), passes) == Broadcast(CardAdded(old(State()), card), net, 0)
    {
      AddToMenuSpec(cards, card);
      cards := cards + [card];
      cards := SortBy(cards, CardKey);
      cards := Dedup(cards);
      passes := SendUpdate(net);
    }

    /** `remove_card`: no broadcast when the card is not on the menu. */
    method RemoveCard(card: nat, net: Transport) returns (passes: seq<Pass>)
      requires Valid()
      modifies this
      ensures Valid()
      ensures card !in old(cards) ==> State() == old(State()) && passes == []
      ensures card in old(cards) ==> (State(), passes) == Broadcast(CardRemoved(old(State()), card), net, 0)
    {
      RemoveFromMenuSpec(cards, card);
      var pos := Position(cards, card);
      if pos.Some? {
        cards := cards[..pos.value] + cards[pos.value + 1..];
        passes := SendUpdate(net);
      } else {
        passes := [];
      }
    }

    /** `set_name`: no change and no broadcast for an unknown player. */
    method SetName(uid: Uid, name: string, net: Transport) returns (passes: seq<Pass>)
      requires Valid()
      modifies this
      ensures Valid()
      ensures uid !in old(players) ==> State() == old(State()) && passes == []
      ensures uid in old(players) ==> (State(), passes) == Broadcast(Renamed(old(State()), uid, name), net, 0)
    {
      if uid in players {
        players := players[uid := players[uid].(name := name)];
        passes := SendUpdate(net);
      } else {
        passes := [];
      }
    }

    /** `place_bet`: no change and no broadcast for an unknown player. */
    method PlaceBet(uid: Uid, card: Option<nat>, net: Transport) returns (passes: seq<Pass>)
      requires Valid()
      modifies this
      ensures Valid()
      ensures uid !in old(players) ==> State() == old(State()) && passes == []
      ensures uid in old(players) ==> (State(), passes) == Broadcast(BetPlaced(old(State()), uid, card), net, 0)
    {
      if uid in players {
        players := players[uid := players[uid].(card := card)];
        passes := SendUpdate(net);
      } else {
        passes := [];
      }
    }

    /** `reveal`. */
    method Reveal(net: Transport) returns (passes: seq<Pass>)
      requires Valid()
      modifies this
      ensures Valid()
      ensures (State(), passes) == Broadcast(Revealed(old(State())), net, 0)
    {
      hidden := false;
      passes := SendUpdate(net);
    }

    /** `hide`: set the flag, clear every bet in a pass over the players, broadcast. */
    method Hide(net: Transport) returns (passes: seq<Pass>)
      requires Valid()
      modifies this
      ensures Valid()
      ensures (State(), passes) == Broadcast(HiddenCleared(old(State())), net, 0)
    {
      hidden := true;
      var i := 0;
      while i < |order|
        invariant 0 <= i <= |order|
        invariant hidden && cards == old(cards) && order == old(order) && closed == old(closed)
        invariant players.Keys == old(players).Keys
        invariant forall u :: u in players ==>
          players[u] == if u in order[..i] then old(players)[u].(card := None) else old(players)[u]
      {
        var u := order[i];
        assert forall k :: k in order[..i + 1] <==> k in order[..i] || k == u;
        players := players[u := players[u].(card := None)];
        i := i + 1;
      }
      assert order[..|order|] == order;
      assert players == HiddenCleared(old(State())).players;
      passes := SendUpdate(net);
    }
  }

  // ---------------------------------------------------------------------------
  // The registry of rooms

  /** `ServerState`: the rooms by id, each a shared reference to its `Game`. */
  class ServerState {
    var games: map<RoomId, Game>

    /** Every room is well formed, and each room id has a room object of its own. */
    ghost predicate Valid()
      reads this, games.Values
    {
      && (forall r :: r in games ==> games[r].Valid())
      && SeparateRooms()
    }

    /** Different room ids never share a room (each is created by its own `Game::new`). */
    ghost predicate SeparateRooms()
      reads this
    {
      forall r1, r2 :: r1 in games && r2 in games && r1 != r2 ==> games[r1] != games[r2]
    }

    constructor ()
      ensures games == map[]
      ensures Valid()
    {
      games := map[];
    }

    /** `get_game`: look a room up without creating it. */
    method GetGame(roomId: RoomId) returns (g: Option<Game>)
      ensures roomId in games ==> g == Some(games[roomId])
      ensures roomId !in games ==> g == None
    {
      if roomId in games {
        g := Some(games[roomId]);
      } else {
        g := None;
      }
    }

    /** `ServerStateInner::get_or_create_game`: the entry for the room, inserting a default room if missing. */
    method GetOrCreateEntry(roomId: RoomId) returns (g: Game)
      requires Valid()
      modifies this
      ensures Valid()
      ensures roomId in old(games) ==> g == old(games)[roomId] && games == old(games)
      ensures roomId !in old(games) ==> fresh(g) && g.State() == DefaultState() && games == old(games)[roomId := g]
    {
      if roomId in games {
        g := games[roomId];
      } else {
        g := new Game();
        games := games[roomId := g];
      }
    }

    /** `ServerState::get_or_create_game`: a read-only lookup first, then the creating one. */
    method GetOrCreateGame(roomId: RoomId) returns (g: Game)
      requires Valid()
      modifies this
      ensures Valid()
      ensures roomId in old(games) ==> g == old(games)[roomId] && games == old(games)
      ensures roomId !in old(games) ==> fresh(g) && g.State() == DefaultState() && games == old(games)[roomId := g]
    {
      var found := GetGame(roomId);
      if found.Some? {
        return found.value;
      }
      g := GetOrCreateEntry(roomId);
    }
  }
}
