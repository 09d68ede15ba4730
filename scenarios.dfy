/**
 * One round of play in a fresh room, stated on the room's transitions and the
 * views they produce: two players join, one bets, the round is revealed and
 * hidden again; a player whose socket has gone silent is dropped by the
 * next broadcast; and which display names a rename accepts.
 */
module Scenarios {
  import opened Common
  import opened Protocol
  import opened Backend
  import Api

  const Alice: Uid := 1
  const Bob: Uid := 2

  /** The views of a two-player room list, for each recipient, the other player only. */
  lemma OthersOfTwo(players: map<Uid, Player>, x: Uid, y: Uid, hidden: bool, self: Uid)
    requires x in players && y in players
    ensures Others(players, [x, y], hidden, self)
      == (if x == self then [] else [Redact(players[x], hidden)])
       + (if y == self then [] else [Redact(players[y], hidden)])
  {
    assert [x, y][..1] == [x];
    assert [x][..0] == [];
    assert Others(players, [x], hidden, self)
      == Others(players, [], hidden, self) + (if x == self then [] else [Redact(players[x], hidden)]);
  }

  /** Alice's record as she joins, and Bob's. */
  function AliceNew(): Player { Player(None, Socket(10), "alice") }
  function BobNew(): Player { Player(None, Socket(20), "bob") }

  /** Alice joins the fresh room. */
  function AliceIn(): (s: GameState)
    ensures s == GameState(DefaultCards, map[Alice := AliceNew()], [Alice], true, [])
  {
    Joined(DefaultState(), Alice, Socket(10), "alice")
  }

  /** Bob joins as well, after her in the iteration order. */
  function BothIn(): (s: GameState)
    ensures s == GameState(DefaultCards, map[Alice := AliceNew(), Bob := BobNew()], [Alice, Bob], true, [])
  {
    Joined(AliceIn(), Bob, Socket(20), "bob")
  }

  /** Alice bets 300. */
  function AliceBet(): (s: GameState)
    ensures s == GameState(DefaultCards, map[Alice := AliceNew().(card := Some(300)), Bob := BobNew()],
      [Alice, Bob], true, [])
  {
    var s := BetPlaced(BothIn(), Alice, Some(300));
    assert s.players == map[Alice := AliceNew().(card := Some(300)), Bob := BobNew()];
    s
  }

  /** The round is revealed. */
  function Shown(): (s: GameState)
    ensures s == AliceBet().(hidden := false)
  {
    Revealed(AliceBet())
  }

  /** The round is hidden again, which clears Alice's bet. */
  function Cleared(): (s: GameState)
    ensures s == BothIn()
  {
    var s := HiddenCleared(Shown());
    assert s.players == map[Alice := AliceNew(), Bob := BobNew()];
    s
  }

  /**
   * Alice and Bob join a fresh room, Alice bets 300, the round is revealed and
   * then hidden: Bob sees Alice's bet as the marker 0 while hidden and as
   * 300 once revealed, Alice always sees her own 300, and hiding clears
   * every bet.
   */
  lemma OneRound()
    ensures ViewFor(AliceIn(), Alice) == PlayerGameState([], DefaultCards, PlayerState(None, "alice"), true)
    ensures ViewFor(BothIn(), Alice).players == [PlayerState(None, "bob")]
    ensures ViewFor(BothIn(), Bob).players == [PlayerState(None, "alice")]
    ensures ViewFor(AliceBet(), Bob).players == [PlayerState(Some(0), "alice")]
    ensures ViewFor(AliceBet(), Alice).selfState == PlayerState(Some(300), "alice")
    ensures ViewFor(Shown(), Bob).players == [PlayerState(Some(300), "alice")]
    ensures ViewFor(Cleared(), Alice).players == [PlayerState(None, "bob")]
    ensures ViewFor(Cleared(), Bob).players == [PlayerState(None, "alice")]
    ensures ViewFor(Cleared(), Alice).selfState == PlayerState(None, "alice")
  {
    assert [Alice][..0] == [];
    OthersOfTwo(BothIn().players, Alice, Bob, true, Alice);
    OthersOfTwo(BothIn().players, Alice, Bob, true, Bob);
    OthersOfTwo(AliceBet().players, Alice, Bob, true, Bob);
    OthersOfTwo(Shown().players, Alice, Bob, false, Bob);
  }

  /** Alice's socket has gone silent: every send to her fails. */
  function AliceSilent(): Transport {
    (pass: nat, u: Uid) => u != Alice
  }

  /** The room once Alice is dropped: Bob alone, Alice's socket closed. */
  function BobAlone(): GameState {
    GameState(DefaultCards, map[Bob := BobNew()], [Bob], true, [Socket(10)])
  }

  /**
   * A broadcast in the two-player room while Alice is silent: the first
   * pass fails for Alice only, so she is dropped and her socket closed; the
   * second pass succeeds and ends the broadcast, delivering to Bob a view
   * of the room without her.
   */
  lemma SilentPlayerDropped()
    ensures Broadcast(BothIn(), AliceSilent(), 0).0 == BobAlone()
    ensures |Broadcast(BothIn(), AliceSilent(), 0).1| == 2
    ensures Broadcast(BothIn(), AliceSilent(), 0).1[1]
      == [Delivery(Bob, PlayerGameState([], DefaultCards, PlayerState(None, "bob"), true))]
  {
    SilentBroadcast();
    BobAloneView();
  }

  /** The broadcast of the silent-player scenario takes two passes and ends with Bob alone. */
  lemma SilentBroadcast()
    ensures Broadcast(BothIn(), AliceSilent(), 0)
      == (BobAlone(), [Delivered(BothIn(), BothIn().order, AliceSilent(), 0), FullPass(BobAlone())])
  {
    BothInEnumerated();
    BobAloneEnumerated();
    FirstPassFailsForAlice();
    DroppingAlice();
    TwoPasses(BothIn(), AliceSilent(), [Alice], BobAlone());
  }

  /** The two-player room lists both players in its iteration order. */
  lemma BothInEnumerated()
    ensures Enumerates(BothIn().order, BothIn().players.Keys)
  {
    assert BothIn().players.Keys == {Alice, Bob};
  }

  /** The room with Bob alone lists him in its iteration order. */
  lemma BobAloneEnumerated()
    ensures Enumerates(BobAlone().order, BobAlone().players.Keys)
  {
    assert BobAlone().players.Keys == {Bob};
  }

  /** A broadcast whose first pass fails for `failed` and whose second pass succeeds for everyone left. */
  lemma TwoPasses(s: GameState, net: Transport, failed: seq<Uid>, d: GameState)
    requires Enumerates(s.order, s.players.Keys)
    requires Failed(s.order, net, 0) == failed != []
    requires DropAll(s, failed) == d && Enumerates(d.order, d.players.Keys)
    requires forall k :: k in d.players ==> net(1, k)
    ensures Broadcast(s, net, 0).0 == d
    ensures Broadcast(s, net, 0).1 == [Delivered(s, s.order, net, 0), FullPass(d)]
  {
    BroadcastUnfold(s, net, 0);
    BroadcastAllDelivered(d, net, 1);
  }

  /** In the first pass only the send to Alice fails. */
  lemma FirstPassFailsForAlice()
    ensures Failed(BothIn().order, AliceSilent(), 0) == [Alice]
  {
    var net := AliceSilent();
    assert BothIn().order == [Alice, Bob];
    assert [Alice, Bob][..1] == [Alice];
    assert [Alice][..0] == [];
    assert Failed([Alice], net, 0) == Failed([], net, 0) + [Alice];
  }

  /** Dropping Alice leaves Bob alone and closes her socket. */
  lemma DroppingAlice()
    ensures DropAll(BothIn(), [Alice]) == BobAlone()
  {
    DropAliceFromTwo(AliceNew(), BobNew());
  }

  /** Dropping the first of two players, whatever their records. */
  lemma DropAliceFromTwo(a: Player, b: Player)
    ensures DropAll(GameState(DefaultCards, map[Alice := a, Bob := b], [Alice, Bob], true, []), [Alice])
      == GameState(DefaultCards, map[Bob := b], [Bob], true, [a.receiver])
  {
    var s := GameState(DefaultCards, map[Alice := a, Bob := b], [Alice, Bob], true, []);
    assert [Alice][..0] == [];
    assert DropAll(s, [Alice]) == DropOne(s, Alice);
    RemovingAlice();
    assert s.players - {Alice} == map[Bob := b];
  }

  /** Alice leaves the iteration order. */
  lemma RemovingAlice()
    ensures RemoveUid([Alice, Bob], Alice) == [Bob]
  {
    assert [Alice, Bob][..1] == [Alice];
    assert [Alice][..0] == [];
    assert RemoveUid([Alice], Alice) == RemoveUid([], Alice) + [];
  }

  /** The full pass of the room with Bob alone: Bob sees nobody else. */
  lemma BobAloneView()
    ensures FullPass(BobAlone())
      == [Delivery(Bob, PlayerGameState([], DefaultCards, PlayerState(None, "bob"), true))]
  {
    var s := BobAlone();
    assert [Bob][..0] == [];
    assert Others(s.players, [Bob], true, Bob) == Others(s.players, [], true, Bob) + [];
    assert AllViews(s, [Bob]) == AllViews(s, []) + [Delivery(Bob, ViewFor(s, Bob))];
  }

  /**
   * The names of the rename scenario: "bob!" is refused for its '!',
   * "bob_2" is accepted and the empty name is refused.
   */
  lemma NameExamples()
    ensures !Api.ValidUsername("bob!")
    ensures Api.ValidUsername("bob_2")
    ensures !Api.ValidUsername("")
  {
    assert !Api.IsNameChar("bob!"[3]);
  }
}
