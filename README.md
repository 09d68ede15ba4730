# scrum-poker rooms, modelled in Dafny

This project models the planning-poker room engine of `scrum-poker`. A room
holds a card menu, a `hidden` flag and the connected players, each with an
optional bet and a display name. After every change the room broadcasts
(`send_update`) a view to each player. In that view the other players' bets
are masked while the round is hidden. A player whose send fails is dropped,
their socket is closed, and the whole broadcast is redone until one pass
has no failure.

The project has these modules:

- `Backend` (`backend.dfy`) models the room and the room registry of `backend.rs`.
  - A room's state is the value `GameState`. Each room operation is a pure
    transition on it (`Joined`, `CardAdded`, `CardRemoved`, `Renamed`,
    `BetPlaced`, `Revealed`, `HiddenCleared`).
  - A broadcast is the function `Broadcast`. It returns the room left after
    the broadcast and the deliveries of every pass.
  - `Backend.Game` is the object `GameInner`, with its fields updated in
    place. Each of its methods is proved to leave exactly the state, and
    return exactly the passes, that the transition followed by `Broadcast`
    gives. `Backend.ServerState` is the registry of rooms.
- `Api` (`api.dfy`) models the server functions of `api.rs`.
  - It validates user names with `check_username`.
  - Each server function looks the room up without creating it, then runs
    one room operation.
- `Frontend` (`frontend.dfy`) models what the room page derives from a
  snapshot: the average bet, the order of the table rows, each row's bet
  cell, and the card buttons with the active one marked.
- `Sequences` (`sequences.dfy`) holds what the code relies on from Rust's
  `sort_unstable`, `dedup` and `position`.
- `Protocol` (`protocol.dfy`) holds the snapshot types.
- `Scenarios` (`scenarios.dfy`) holds three worked examples: a full round of
  play, a silent player being dropped, and the names a rename accepts.

Modelling choices:

- The room's `HashMap<u64, Player>` is the map `players` plus the sequence
  `order`, which is the map's iteration order. Every key appears in `order`
  exactly once.
- A socket is an opaque `Socket` value. Closing a socket appends it to the
  room's `closed` log.
- Whether a send succeeds is the parameter `net: Transport`. It says, for
  each pass of a broadcast and each player, whether the send goes through.
- `gen_nickname` is the parameter `nickname`.

## Model

| member | source | states |
|---|---|---|
| Sequences.SortBy | src/components/poker/room/backend.rs:130 | `sort_unstable`: the result is sorted by the key, is a permutation of the input and has its length |
| Sequences.Dedup | src/components/poker/room/backend.rs:131 | `dedup`: every kept element came from the input, every input element is kept, no two neighbours are equal, the first element stays first |
| Sequences.DedupSnoc | src/components/poker/room/backend.rs:131 | `dedup` works left to right and keeps order: appending an element equal to the last one adds nothing, and appending any other element adds exactly it at the end; with `Dedup([]) == []` this fixes the result of every input |
| Sequences.DedupSorted | src/components/poker/room/backend.rs:131 | `dedup` keeps a sorted sequence sorted |
| Sequences.InsertBySorted | src/components/poker/room/backend.rs:130 | inserting an element into a sorted sequence keeps it sorted, which is the step of the sort |
| Sequences.Position | src/components/poker/room/backend.rs:137 | `position`: the index of the first occurrence, and `None` exactly when the value is absent |
| Backend.ToPlayerState | src/components/poker/room/backend.rs:77-84 | the record sent on the wire: the player's bet and name, without the socket (a definition; `ViewSpec` states what the views carry) |
| Backend.DefaultStateWf | src/components/poker/room/backend.rs:93-101 | the default room (the eight default cards, nobody connected, hidden) satisfies the room invariant |
| Backend.AddToMenu | src/components/poker/room/backend.rs:128-131 | the menu after push, `sort_unstable` and `dedup` (a definition; `AddToMenuSpec` states its meaning) |
| Backend.SortedNoRepeatsAscending | src/components/poker/room/backend.rs:129-131 | a sorted menu with no equal neighbours is strictly ascending |
| Backend.AddToMenuSpec | src/components/poker/room/backend.rs:128-133 | after push, sort and dedup, the menu is strictly ascending and holds exactly the old cards plus the new one |
| Backend.RemoveFromMenu | src/components/poker/room/backend.rs:136-139 | the menu after removing the first occurrence of the card, if any (a definition; `RemoveFromMenuSpec` states its meaning) |
| Backend.RemoveAtAscending | src/components/poker/room/backend.rs:138 | removing one position from a strictly ascending menu keeps it strictly ascending |
| Backend.RemoveAtMembers | src/components/poker/room/backend.rs:138 | removing one position from a menu without repeats takes out exactly that card |
| Backend.RemoveFromMenuSpec | src/components/poker/room/backend.rs:135-141 | removing keeps the menu strictly ascending and takes out exactly that card; an absent card leaves the menu unchanged; a present one shortens it by one |
| Backend.EditsKeepMenuAscending | src/components/poker/room/backend.rs:127-141 | any sequence of card additions and removals keeps a strictly ascending menu strictly ascending |
| Backend.Joined | src/components/poker/room/backend.rs:115-123 | the room after `new_player`: a fresh entry, a replaced connection's socket closed (a definition; `JoinedSpec` states its meaning) |
| Backend.JoinedSpec | src/components/poker/room/backend.rs:115-125 | a join leaves one entry for the user, with no bet and the generated name; other players are untouched; a replaced connection's socket is closed; the invariant holds |
| Backend.CardAdded | src/components/poker/room/backend.rs:128-131 | the room after `add_new_card`, before its broadcast (a definition; `AddToMenuSpec` states the menu it gets) |
| Backend.CardRemoved | src/components/poker/room/backend.rs:136-139 | the room after `remove_card`, before its broadcast (a definition; `RemoveFromMenuSpec` states the menu it gets) |
| Backend.Renamed | src/components/poker/room/backend.rs:143-146 | the room after `set_name` on a connected player (a definition; `PlayerUpdateSpec` states its meaning) |
| Backend.BetPlaced | src/components/poker/room/backend.rs:150-153 | the room after `place_bet` on a connected player (a definition; `PlayerUpdateSpec` and `BetRoundTrip` state its meaning) |
| Backend.PlayerUpdateSpec | src/components/poker/room/backend.rs:143-155 | renaming or betting changes that one field of that one player and nothing else |
| Backend.BetRoundTrip | src/components/poker/room/backend.rs:150-155 | betting and then withdrawing equals withdrawing directly, and restores a player who had no bet |
| Backend.Revealed | src/components/poker/room/backend.rs:163-165 | the room after `reveal` (a definition; `RevealSpec` states its meaning) |
| Backend.HiddenCleared | src/components/poker/room/backend.rs:168-172 | the room after `hide` (a definition; `HideSpec` states its meaning) |
| Backend.RevealSpec | src/components/poker/room/backend.rs:163-166 | revealing only clears the flag and keeps the invariant |
| Backend.HideSpec | src/components/poker/room/backend.rs:168-174 | hiding sets the flag and clears every bet, keeping names, sockets and players; hiding twice equals hiding once |
| Backend.Redact | src/components/poker/room/backend.rs:190-193 | another player's record as a recipient sees it (a definition; `ViewSpec` states its meaning) |
| Backend.Others | src/components/poker/room/backend.rs:186-195 | the list of other players in a view (a definition; `OthersSpec` states its meaning) |
| Backend.ViewFor | src/components/poker/room/backend.rs:180-195 | the snapshot sent to one player (a definition; `ViewSpec` states its meaning) |
| Backend.OthersSpec | src/components/poker/room/backend.rs:186-195 | the "others" of a view are the redacted records of the iteration order without the recipient, in that order |
| Backend.ViewSpec | src/components/poker/room/backend.rs:179-195 | the recipient's own record is unredacted; each other player appears once with their name, and with their real bet while revealed or only whether they bet (as 0) while hidden |
| Backend.RemoveUidEnumerates | src/components/poker/room/backend.rs:212-216 | removing a player from the iteration order leaves an enumeration of the remaining players |
| Backend.Failed | src/components/poker/room/backend.rs:197-207 | the players whose send fails in a pass, in iteration order: only failed ones, and every failed one |
| Backend.Delivered | src/components/poker/room/backend.rs:179-208 | the views that reach their players in one pass (a definition; `DeliveredAll` states its meaning when nothing fails) |
| Backend.FailedDistinct | src/components/poker/room/backend.rs:197-207 | each player whose send failed is recorded once |
| Backend.AllViewsSpec | src/components/poker/room/backend.rs:179-208 | in a full pass the i-th delivery goes to the i-th player and carries that player's view |
| Backend.DeliveredAll | src/components/poker/room/backend.rs:197-210 | a pass with no failed send delivered every player's view |
| Backend.FailedNone | src/components/poker/room/backend.rs:197-209 | a pass records no failure exactly when every send in it succeeds |
| Backend.DropOne | src/components/poker/room/backend.rs:213-215 | removing one player and closing their socket (a definition; `DropAllKeeps` and `DropAllShrinks` state its meaning) |
| Backend.DropAll | src/components/poker/room/backend.rs:212-216 | removing the failed players one after another (a definition; `DropAllKeeps` and `DropAllShrinks` state its meaning) |
| Backend.DropAllKeeps | src/components/poker/room/backend.rs:212-216 | dropping players removes only them; the menu, the flag and the others' records are unchanged |
| Backend.DropAllShrinks | src/components/poker/room/backend.rs:212-216 | dropping distinct players shrinks the room by their number, keeps the order an enumeration, and closes exactly their sockets, in order |
| Backend.DropAllEnumerates | src/components/poker/room/backend.rs:212-216 | dropping distinct players keeps the order an enumeration of the remaining players and shrinks the room by their number |
| Backend.DropAllCloses | src/components/poker/room/backend.rs:212-216 | dropping distinct players appends exactly their sockets to the closed log, in order |
| Backend.SocketsSpec | src/components/poker/room/backend.rs:157-161 | the closed sockets are those of the dropped players, in order |
| Backend.Broadcast | src/components/poker/room/backend.rs:176-219 | the whole `send_update` loop, ending in the room left and the sends of every pass (a definition; the `Broadcast...` lemmas below state its meaning, and `Game.SendUpdate` is proved to compute it) |
| Backend.BroadcastUnfold | src/components/poker/room/backend.rs:176-219 | one pass of `send_update`: it stops when nobody failed, and otherwise it goes on from the smaller room without the failed players |
| Backend.BroadcastKeeps | src/components/poker/room/backend.rs:176-219 | a broadcast only removes players, keeps the survivors' records, the menu and the flag, and leaves the order an enumeration |
| Backend.BroadcastKeepsReliable | src/components/poker/room/backend.rs:176-219 | a broadcast never drops a player whose sends succeed in every pass |
| Backend.BroadcastSettles | src/components/poker/room/backend.rs:176-219 | a broadcast ends after at most one pass per player plus one, and its last pass delivers the current view to every remaining player |
| Backend.BroadcastClosedLog | src/components/poker/room/backend.rs:212-216 | a broadcast only appends to the closed log, one socket per dropped player |
| Backend.BroadcastClosedCount | src/components/poker/room/backend.rs:212-216 | each player a broadcast drops adds exactly one socket to the closed log |
| Backend.BroadcastClosedPrefix | src/components/poker/room/backend.rs:212-216 | a broadcast keeps the earlier closed log as a prefix |
| Backend.BroadcastClosesDropped | src/components/poker/room/backend.rs:212-216 | every dropped player's socket is closed |
| Backend.BroadcastAllDelivered | src/components/poker/room/backend.rs:209-211 | when every first-pass send succeeds, the broadcast is that one full pass and changes nothing |
| Backend.SendStep | src/components/poker/room/backend.rs:209-217 | after a failed pass, the room without the failed players is well formed and smaller, and the remaining passes complete the same broadcast |
| Backend.Game.constructor | src/components/poker/room/backend.rs:93-101 | a new room is the default room |
| Backend.Game.BuildView | src/components/poker/room/backend.rs:180-195 | the view built for a player is the redacted view `ViewFor` |
| Backend.Game.SendPass | src/components/poker/room/backend.rs:179-208 | one pass returns the deliveries made and the players whose send failed |
| Backend.Game.DropPlayers | src/components/poker/room/backend.rs:212-217 | removes the failed players and closes their sockets |
| Backend.Game.SendUpdate | src/components/poker/room/backend.rs:176-219 | the loop ends in the room and the passes `Broadcast` gives, keeping the invariant |
| Backend.Game.NewPlayer | src/components/poker/room/backend.rs:115-125 | the room becomes `Joined` followed by a broadcast |
| Backend.Game.AddNewCard | src/components/poker/room/backend.rs:128-133 | the room becomes `CardAdded` followed by a broadcast |
| Backend.Game.RemoveCard | src/components/poker/room/backend.rs:136-141 | an absent card changes nothing and sends nothing; otherwise the room becomes `CardRemoved` followed by a broadcast |
| Backend.Game.SetName | src/components/poker/room/backend.rs:143-148 | an unknown player changes nothing and sends nothing; otherwise the room becomes `Renamed` followed by a broadcast |
| Backend.Game.PlaceBet | src/components/poker/room/backend.rs:150-155 | an unknown player changes nothing and sends nothing; otherwise the room becomes `BetPlaced` followed by a broadcast |
| Backend.Game.Reveal | src/components/poker/room/backend.rs:163-166 | the room becomes `Revealed` followed by a broadcast |
| Backend.Game.Hide | src/components/poker/room/backend.rs:168-174 | the loop clears every bet, so the room becomes `HiddenCleared` followed by a broadcast |
| Backend.ServerState.constructor | src/components/poker/room/backend.rs:19-22 | a new registry has no rooms |
| Backend.ServerState.GetGame | src/components/poker/room/backend.rs:52-54 | returns the room if registered, `None` otherwise, and creates nothing |
| Backend.ServerState.GetOrCreateEntry | src/components/poker/room/backend.rs:56-58 | returns the registered room unchanged, or registers and returns a new default room; the registry stays valid, each room id keeping a room object of its own |
| Backend.ServerState.GetOrCreateGame | src/components/poker/room/backend.rs:38-43 | the read-then-create lookup has the same outcome as the creating lookup alone |
| Api.CheckUsername | src/components/poker/room/api.rs:34-45 | accepts exactly the non-empty names made of `0-9 a-z A-Z - _`; the empty name gets "Has to be non-empty" and any other refused name gets the charset message |
| Api.GetGame | src/components/poker/room/api.rs:23-31 | a registered room is returned; otherwise "No such room", and no room is created |
| Api.PlaceBet | src/components/poker/room/api.rs:47-57 | an unknown room is an error and nothing changes; otherwise the room's `place_bet` runs and `Ok` is returned whatever the broadcast does; the room of every other room id is unchanged |
| Api.Reveal | src/components/poker/room/api.rs:59-63 | the same, with the room's `reveal` |
| Api.Hide | src/components/poker/room/api.rs:65-69 | the same, with the room's `hide` |
| Api.SetName | src/components/poker/room/api.rs:71-83 | an invalid name is refused with its validation message before the room is looked up, and nothing changes; a valid name behaves like the other operations |
| Frontend.Bets | src/components/poker/room/frontend.rs:316-320 | the bets are exactly the values of the records that have one, and there are no more of them than records |
| Frontend.BetsAppend | src/components/poker/room/frontend.rs:316-320 | the bets of two runs of records are the bets of the first followed by those of the second, so order is kept |
| Frontend.BetsCount | src/components/poker/room/frontend.rs:316-320 | each value occurs among the bets exactly once per record whose card it is |
| Frontend.BetsLength | src/components/poker/room/frontend.rs:316-322 | there is one bet per record that has a card, which is the count the average divides by |
| Frontend.AvgBet | src/components/poker/room/frontend.rs:314-329 | the `avg_bet` memo (a definition; `AvgBetMean`, `AvgBetBounded` and `AvgBetExample` state its meaning) |
| Frontend.AvgBetMean | src/components/poker/room/frontend.rs:314-329 | the average is the sum of the bets divided by the number of players with a bet, rounded down, and 0 when nobody has bet |
| Frontend.AvgBetExample | src/components/poker/room/frontend.rs:314-329 | bets of 100, 100 and 200 plus a player without a bet average 133 |
| Frontend.Average | src/components/poker/room/frontend.rs:321-327 | the average is 0 with no bets, and otherwise the sum divided by the count, rounded down |
| Frontend.SumBounds | src/components/poker/room/frontend.rs:321 | the sum of values between two bounds lies between the count times each bound |
| Frontend.BetsWithin | src/components/poker/room/frontend.rs:316-320 | the bets of records whose cards lie within bounds lie within them |
| Frontend.AverageQuotient | src/components/poker/room/frontend.rs:321-327 | the rounded-down mean of a non-empty list is its sum divided by its length |
| Frontend.AverageBounds | src/components/poker/room/frontend.rs:321-327 | the rounded-down mean of values between two bounds lies between them |
| Frontend.AvgBetBounded | src/components/poker/room/frontend.rs:314-329 | the average lies between the lowest and highest bet; if everyone chose the same card, it is that card |
| Frontend.CardRank | src/components/poker/room/frontend.rs:287-288 | the order `Option<u64>` has: no bet below every bet, bets by value (a definition; `TableRowsRevealed` states its use) |
| Frontend.RowKey | src/components/poker/room/frontend.rs:287-288 | the sort key `Reverse(card)` (a definition; `TableRowsRevealed` states its use) |
| Frontend.OtherRows | src/components/poker/room/frontend.rs:280-286 | one row per other player, in snapshot order, not marked as the recipient's |
| Frontend.TableRows | src/components/poker/room/frontend.rs:280-289 | the table rows: the others then the recipient, sorted by descending bet once revealed (a definition; the `TableRows...` lemmas state its meaning) |
| Frontend.TableRowsPermutation | src/components/poker/room/frontend.rs:280-289 | the table shows every other player once and the recipient exactly once |
| Frontend.TableRowsHidden | src/components/poker/room/frontend.rs:280-287 | while hidden, the rows keep the snapshot's order with the recipient last |
| Frontend.TableRowsRevealed | src/components/poker/room/frontend.rs:287-289 | once revealed, the rows are in descending order of bet, with rows without a bet last |
| Frontend.CardCell | src/components/poker/room/frontend.rs:269-276 | no bet shows nothing; the icon shows exactly for another player's bet while hidden; otherwise the amount of the bet shows |
| Frontend.OtherCellSpec | src/components/poker/room/frontend.rs:269-276 | combined with the server's redaction, another player's cell shows only whether they bet while hidden, and their bet once revealed |
| Frontend.SelfCellSpec | src/components/poker/room/frontend.rs:269-276 | the recipient's own cell always shows their own bet |
| Frontend.CardButtons | src/components/poker/room/frontend.rs:195-204 | one button per menu card, in order, highlighted exactly when its card is the recipient's bet, followed by the "X" button, which withdraws the bet and is never highlighted |
| Frontend.CardButtonsOnMenu | src/components/poker/room/frontend.rs:195-204 | a highlighted button places the recipient's bet, and some button is highlighted exactly when that bet is on the menu |
| Frontend.CardButtonsActive | src/components/poker/room/frontend.rs:195-204 | with a strictly ascending menu, at most one button is highlighted |
| Scenarios.OneRound | src/components/poker/room/backend.rs:115-174 | two players join; one bets 300; the other sees 0 while hidden and 300 once revealed; hiding clears every bet |
| Scenarios.SilentPlayerDropped | src/components/poker/room/backend.rs:176-219 | a player whose sends fail is dropped with their socket closed; the second pass delivers the view without them and ends the broadcast |
| Scenarios.SilentBroadcast | src/components/poker/room/backend.rs:176-219 | the broadcast with a silent player takes two passes and ends with the other player alone |
| Scenarios.NameExamples | src/components/poker/room/api.rs:34-45 | "bob!" and "" are refused, "bob_2" is accepted |

## Left out

- The WebSocket transport is not modelled: `new_connection`, `ws_handler`, the socket split and the JSON encoding of snapshots. A send is the outcome `net(pass, uid)`, and closing a socket is an entry in the `closed` log. Errors from closing a socket are only logged by the code, so the model ignores them.
- Locks and concurrency are not modelled. The registry's `RwLock`, the room's mutex and the `AtomicRefCell` are left out, and each operation runs on its own.
- Backend.ServerState.GetOrCreateGame: the read lookup followed by the write lookup is modelled sequentially. The race it guards against, where two creators run concurrently, is not modelled.
- Backend.Game.NewPlayer: `gen_nickname` is a parameter. The generator itself is not part of this model.
- Rust's `HashMap` iteration order is not modelled. The model uses insertion order: a new id goes to the end, a replaced id keeps its place, and a removed id leaves. The "others" of a view and the order of sends follow that order, not the real hash order.
- Integers are unbounded. `u64` wrap-around and the 128-bit user ids of the wider system are not modelled.
- Frontend.Average: the `u64` sum of the bets could overflow in the code. The model sums without bound.
- Frontend.CardCell: the formatting of amounts (`convert_to_double`, which uses floating point) is not modelled. A cell carries the raw value.
- The frontend's random user id (`get_random_u64`), the Leptos signals, the HTML markup and the snapshot stream are not modelled.
- The server functions at `frontend.rs:40-74` are not modelled. They are an older copy of the ones in `api.rs`, and their `set_name` skips the name check.
- `session_store.rs`, `uid.rs`, `main.rs`, `app.rs` and the main page component are not part of this model.
- Room removal when a room becomes empty is not modelled, because the code never removes a room. A separate disconnect command is also not modelled, because in the code a player leaves only when a send to them fails or a new connection replaces theirs.
- `place_bet` does not check that the card is on the menu, and the model keeps that: any value is accepted.
