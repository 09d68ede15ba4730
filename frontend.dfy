/**
 * What the room page derives from the latest snapshot it received: the
 * average bet, the rows of the players' table in display order, the content
 * of each row's bet cell, and the card buttons with the active one marked.
 */
module Frontend {
  import opened Common
  import opened Sequences
  import opened Protocol
  import Backend

  // ---------------------------------------------------------------------------
  // The average bet

  /** Everyone in the snapshot: the other players, then the recipient. */
  function Everyone(state: PlayerGameState): seq<PlayerState> {
    state.players + [state.selfState]
  }

  /** The bets of `ps`, in order, skipping those without one (`filter_map(|p| p.card)`). */
  function Bets(ps: seq<PlayerState>): (r: seq<nat>)
    ensures |r| <= |ps|
    ensures forall x :: x in r <==> exists i :: 0 <= i < |ps| && ps[i].card == Some(x)
    ensures (forall i :: 0 <= i < |ps| ==> ps[i].card.Some?) ==> |r| == |ps|
    ensures (forall i :: 0 <= i < |ps| ==> ps[i].card.None?) ==> r == []
  {
    if ps == [] then []
    else
      var n := |ps| - 1;
      assert forall i :: 0 <= i < n ==> ps[..n][i] == ps[i];
      Bets(ps[..n]) + (match ps[n].card case None => [] case Some(v) => [v])
  }

  /** The bets of two runs of records, one after the other, are the bets of each, in that order. */
  lemma {:induction false} BetsAppend(a: seq<PlayerState>, b: seq<PlayerState>)
    ensures Bets(a + b) == Bets(a) + Bets(b)
  {
    if b == [] {
      assert a + b == a;
    } else {
      var n := |b| - 1;
      assert (a + b)[..|a + b| - 1] == a + b[..n];
      BetsAppend(a, b[..n]);
    }
  }

  /** Each value occurs among the bets once per record whose card it is. */
  lemma {:induction false} BetsCount(ps: seq<PlayerState>, x: nat)
    ensures multiset(Bets(ps))[x] == |set i | 0 <= i < |ps| && ps[i].card == Some(x)|
  {
    if ps != [] {
      var n := |ps| - 1;
      BetsCount(ps[..n], x);
      CardSetSnoc(ps, x);
      BetsSnocCount(ps, x);
    }
  }

  /** The last record adds its card, if it has one, to the bets of the others. */
  lemma BetsSnocCount(ps: seq<PlayerState>, x: nat)
    requires ps != []
    ensures var n := |ps| - 1;
      multiset(Bets(ps))[x] == multiset(Bets(ps[..n]))[x] + (if ps[n].card == Some(x) then 1 else 0)
  {
    var n := |ps| - 1;
    var before := Bets(ps[..n]);
    match ps[n].card
    case None =>
      assert Bets(ps) == before + [];
    case Some(v) =>
      assert Bets(ps) == before + [v];
      assert multiset(Bets(ps)) == multiset(before) + multiset{v};
  }

  /** The records with card `x` are those of the prefix, and the last one if it has `x`. */
  lemma CardSetSnoc(ps: seq<PlayerState>, x: nat)
    requires ps != []
    ensures var n := |ps| - 1; var q := ps[..n];
      |set i | 0 <= i < |ps| && ps[i].card == Some(x)|
        == |set i | 0 <= i < |q| && q[i].card == Some(x)| + (if ps[n].card == Some(x) then 1 else 0)
  {
    var n := |ps| - 1;
    var q := ps[..n];
    var before := set i | 0 <= i < |q| && q[i].card == Some(x);
    var all := set i | 0 <= i < |ps| && ps[i].card == Some(x);
    if ps[n].card == Some(x) {
      assert all == before + {n};
    } else {
      assert all == before;
    }
  }

  /** There is one bet per record that has a card. */
  lemma {:induction false} BetsLength(ps: seq<PlayerState>)
    ensures |Bets(ps)| == |set i | 0 <= i < |ps| && ps[i].card.Some?|
  {
    if ps != [] {
      var n := |ps| - 1;
      BetsLength(ps[..n]);
      BetSetSnoc(ps);
      assert Bets(ps) == Bets(ps[..n]) + (match ps[n].card case None => [] case Some(v) => [v]);
    }
  }

  /** The records with a card are those of the prefix, and the last one if it has one. */
  lemma BetSetSnoc(ps: seq<PlayerState>)
    requires ps != []
    ensures var n := |ps| - 1; var q := ps[..n];
      |set i | 0 <= i < |ps| && ps[i].card.Some?|
        == |set i | 0 <= i < |q| && q[i].card.Some?| + (if ps[n].card.Some? then 1 else 0)
  {
    var n := |ps| - 1;
    var q := ps[..n];
    var before := set i | 0 <= i < |q| && q[i].card.Some?;
    var all := set i | 0 <= i < |ps| && ps[i].card.Some?;
    if ps[n].card.Some? {
      assert all == before + {n};
    } else {
      assert all == before;
    }
  }

  function Sum(s: seq<nat>): nat {
    if s == [] then 0 else Sum(s[..|s| - 1]) + s[|s| - 1]
  }

  /** A sum of `n` values, each between `lo` and `hi`, is between `n * lo` and `n * hi`. */
  lemma {:induction false} SumBounds(s: seq<nat>, lo: nat, hi: nat)
    requires forall i :: 0 <= i < |s| ==> lo <= s[i] <= hi
    ensures |s| * lo <= Sum(s) <= |s| * hi
  {
    if s != [] {
      var n := |s| - 1;
      SumBounds(s[..n], lo, hi);
      assert |s| * lo == n * lo + lo && |s| * hi == n * hi + hi;
    }
  }

  /**
   * `avg_bet`: the bets of everyone in the snapshot, summed and divided by
   * their number, rounded down; 0 when nobody has bet.
   */
  function AvgBet(state: PlayerGameState): nat {
    Average(Bets(Everyone(state)))
  }

  /**
   * The average is the sum of the bets divided, rounding down, by the number
   * of players in the snapshot who have a bet, and 0 when none has.
   */
  lemma AvgBetMean(state: PlayerGameState)
    ensures var n := |set i | 0 <= i < |Everyone(state)| && Everyone(state)[i].card.Some?|;
      && (n == 0 ==> AvgBet(state) == 0)
      && (n > 0 ==> AvgBet(state) == Sum(Bets(Everyone(state))) / n)
  {
    BetsLength(Everyone(state));
    AverageQuotient(Bets(Everyone(state)));
  }

  /** The mean of some values is their sum divided by their number, rounded down. */
  lemma AverageQuotient(b: seq<nat>)
    ensures b != [] ==> Average(b) == Sum(b) / |b|
  {
    if b != [] {
      DivUnique(Sum(b), |b|, Average(b));
    }
  }

  /**
   * Bets of 100, 100 and 200 and one player without a bet average 133: the
   * player without a bet is not counted, and the mean is rounded down.
   */
  lemma AvgBetExample()
    ensures AvgBet(PlayerGameState(
      [PlayerState(Some(100), "a"), PlayerState(Some(100), "b"), PlayerState(None, "c")],
      [], PlayerState(Some(200), "d"), false)) == 133
  {
    var state := PlayerGameState(
      [PlayerState(Some(100), "a"), PlayerState(Some(100), "b"), PlayerState(None, "c")],
      [], PlayerState(Some(200), "d"), false);
    assert Everyone(state) == [PlayerState(Some(100), "a"), PlayerState(Some(100), "b"), PlayerState(None, "c"),
      PlayerState(Some(200), "d")];
    ExampleBets(PlayerState(Some(100), "a"), PlayerState(Some(100), "b"), PlayerState(None, "c"),
      PlayerState(Some(200), "d"));
    assert Average([100, 100, 200]) == 133 by {
      ExampleSum();
      AverageQuotient([100, 100, 200]);
    }
  }

  /** The bets of the example skip the player without one, whatever the names. */
  lemma ExampleBets(a: PlayerState, b: PlayerState, c: PlayerState, d: PlayerState)
    requires a.card == Some(100) && b.card == Some(100) && c.card == None && d.card == Some(200)
    ensures Bets([a, b, c, d]) == [100, 100, 200]
  {
    BetsOfFour(a, b, c, d);
    BetsOne(a);
    BetsOne(b);
    BetsOne(c);
    BetsOne(d);
    calc {
      Bets([a]) + Bets([b]) + Bets([c]) + Bets([d]);
      [100] + [100] + [] + [200];
      [100, 100, 200];
    }
  }

  /** The bets of four records are those of each, in order. */
  lemma BetsOfFour(a: PlayerState, b: PlayerState, c: PlayerState, d: PlayerState)
    ensures Bets([a, b, c, d]) == Bets([a]) + Bets([b]) + Bets([c]) + Bets([d])
  {
    BetsAppend([a], [b]);
    assert [a] + [b] == [a, b];
    BetsAppend([a, b], [c]);
    assert [a, b] + [c] == [a, b, c];
    BetsAppend([a, b, c], [d]);
    assert [a, b, c] + [d] == [a, b, c, d];
  }

  /** The bets of one record: its card, if it has one. */
  lemma BetsOne(p: PlayerState)
    ensures p.card.None? ==> Bets([p]) == []
    ensures p.card.Some? ==> Bets([p]) == [p.card.value]
  {
    assert [p][..0] == [];
  }

  /** The sum of the example's bets. */
  lemma ExampleSum()
    ensures Sum([100, 100, 200]) == 400
  {
    assert [100, 100, 200][..2] == [100, 100];
    assert [100, 100][..1] == [100];
    assert [100][..0] == [];
  }

  /** The only `q` with `q * n <= a < (q + 1) * n` is `a / n`. */
  lemma DivUnique(a: nat, n: nat, q: nat)
    requires n > 0
    requires q * n <= a < (q + 1) * n
    ensures q == a / n
  {
    DivFloor(a, n);
    if q < a / n {
      MulMonotone(q + 1, a / n, n);
      assert false;
    }
    if q > a / n {
      MulMonotone(a / n + 1, q, n);
      assert false;
    }
  }

  /** The mean of `b` rounded down, 0 for no values. */
  function Average(b: seq<nat>): (r: nat)
    ensures b == [] ==> r == 0
    ensures b != [] ==> r * |b| <= Sum(b) < (r + 1) * |b|
  {
    if b == [] then 0
    else
      var total, n := Sum(b), |b|;
      DivFloor(total, n);
      total / n
  }

  /** Division of naturals rounds down. */
  lemma DivFloor(a: nat, n: nat)
    requires n > 0
    ensures (a / n) * n <= a < (a / n + 1) * n
  {
    var q, m := a / n, a % n;
    assert a == q * n + m;
    assert (q + 1) * n == q * n + n;
  }

  /** Multiplying by a natural keeps the order. */
  lemma MulMonotone(a: nat, b: nat, n: nat)
    requires a <= b
    ensures a * n <= b * n
  {
    assert b * n == a * n + (b - a) * n;
  }

  /**
   * The average lies within the range of the bets; in particular, when
   * everyone who bet chose the same card, the average is that card.
   */
  lemma AvgBetBounded(state: PlayerGameState, lo: nat, hi: nat)
    requires Bets(Everyone(state)) != []
    requires forall i :: 0 <= i < |Everyone(state)| && Everyone(state)[i].card.Some? ==>
      lo <= Everyone(state)[i].card.value <= hi
    ensures lo <= AvgBet(state) <= hi
  {
    BetsWithin(Everyone(state), lo, hi);
    AverageBounds(Bets(Everyone(state)), lo, hi);
  }

  /** The mean of values between `lo` and `hi` is between them. */
  lemma AverageBounds(b: seq<nat>, lo: nat, hi: nat)
    requires b != []
    requires forall i :: 0 <= i < |b| ==> lo <= b[i] <= hi
    ensures lo <= Average(b) <= hi
  {
    SumBounds(b, lo, hi);
    QuotientBounds(Sum(b), |b|, Average(b), lo, hi);
  }

  /** The bets of players whose cards lie between `lo` and `hi` lie there too. */
  lemma {:induction false} BetsWithin(ps: seq<PlayerState>, lo: nat, hi: nat)
    requires forall i :: 0 <= i < |ps| && ps[i].card.Some? ==> lo <= ps[i].card.value <= hi
    ensures forall i :: 0 <= i < |Bets(ps)| ==> lo <= Bets(ps)[i] <= hi
  {
    if ps != [] {
      var n := |ps| - 1;
      BetsWithin(ps[..n], lo, hi);
      assert Bets(ps) == Bets(ps[..n]) + (match ps[n].card case None => [] case Some(v) => [v]);
    }
  }

  /** A rounded-down quotient of a value between `n * lo` and `n * hi` is between `lo` and `hi`. */
  lemma QuotientBounds(s: nat, n: nat, q: nat, lo: nat, hi: nat)
    requires n > 0
    requires q * n <= s < (q + 1) * n
    requires n * lo <= s <= n * hi
    ensures lo <= q <= hi
  {
    if q > hi {
      MulMonotone(hi + 1, q, n);
      assert false;
    }
    if q < lo {
      MulMonotone(q + 1, lo, n);
      assert false;
    }
  }

  // ---------------------------------------------------------------------------
  // The players' table

  /** A table row: a player's record and whether it is the recipient's own. */
  datatype Row = Row(player: PlayerState, isSelf: bool)

  /** The order `Option<u64>` has: no bet below every bet, bets by value. */
  function CardRank(card: Option<nat>): nat {
    match card
    case None => 0
    case Some(v) => v + 1
  }

  /** The sort key `Reverse(card)`: ascending key is descending bet. */
  function RowKey(row: Row): int {
    var rank: int := CardRank(row.player.card);
    -rank
  }

  /** The other players' rows, in the order of the snapshot. */
  function OtherRows(ps: seq<PlayerState>): (r: seq<Row>)
    ensures |r| == |ps|
    ensures forall i :: 0 <= i < |ps| ==> r[i] == Row(ps[i], false)
  {
    if ps == [] then [] else OtherRows(ps[..|ps| - 1]) + [Row(ps[|ps| - 1], false)]
  }

  /**
   * The table's rows: the other players then the recipient, and when the
   * round is revealed, sorted by descending bet (players without a bet last).
   */
  function TableRows(state: PlayerGameState): seq<Row> {
    var rows := OtherRows(state.players) + [Row(state.selfState, true)];
    if state.hidden then rows else SortBy(rows, RowKey)
  }

  /** A row of the recipient's own appears once, and every other row is another player's. */
  lemma {:induction false} SelfRowOnce(rows: seq<Row>, ps: seq<PlayerState>, me: PlayerState)
    requires multiset(rows) == multiset(OtherRows(ps) + [Row(me, true)])
    ensures multiset(rows)[Row(me, true)] == 1
    ensures forall i :: 0 <= i < |rows| && rows[i].isSelf ==> rows[i] == Row(me, true)
  {
    var base := OtherRows(ps) + [Row(me, true)];
    assert Row(me, true) !in multiset(OtherRows(ps));
    forall i | 0 <= i < |rows| && rows[i].isSelf
      ensures rows[i] == Row(me, true)
    {
      assert rows[i] in multiset(base);
      var k :| 0 <= k < |base| && base[k] == rows[i];
    }
  }

  /**
   * The table shows everyone exactly once: one row per other player, not
   * marked as the recipient's, and one row, marked, for the recipient.
   */
  lemma TableRowsPermutation(state: PlayerGameState)
    ensures var rows := TableRows(state);
      && |rows| == |state.players| + 1
      && multiset(rows) == multiset(OtherRows(state.players) + [Row(state.selfState, true)])
      && multiset(rows)[Row(state.selfState, true)] == 1
      && (forall i :: 0 <= i < |rows| && rows[i].isSelf ==> rows[i] == Row(state.selfState, true))
  {
    SelfRowOnce(TableRows(state), state.players, state.selfState);
  }

  /** While hidden the rows keep the snapshot's order, with the recipient last. */
  lemma TableRowsHidden(state: PlayerGameState)
    requires state.hidden
    ensures var rows := TableRows(state);
      && |rows| == |state.players| + 1
      && (forall i :: 0 <= i < |state.players| ==> rows[i] == Row(state.players[i], false))
      && rows[|state.players|] == Row(state.selfState, true)
  {
  }

  /**
   * Once revealed the rows are in descending order of bet, so the rows
   * without a bet come last.
   */
  lemma TableRowsRevealed(state: PlayerGameState)
    requires !state.hidden
    ensures var rows := TableRows(state);
      && (forall i, j :: 0 <= i < j < |rows| ==> CardRank(rows[i].player.card) >= CardRank(rows[j].player.card))
      && (forall i, j :: 0 <= i < j < |rows| && rows[i].player.card.None? ==> rows[j].player.card.None?)
  {
    var rows := TableRows(state);
    forall i, j | 0 <= i < j < |rows|
      ensures CardRank(rows[i].player.card) >= CardRank(rows[j].player.card)
    {
      assert RowKey(rows[i]) <= RowKey(rows[j]);
    }
  }

  // ---------------------------------------------------------------------------
  // The bet cell of a row

  /** What a bet cell shows: nothing, the face-down card icon, or an amount. */
  datatype Cell = Blank | Icon | Amount(value: nat)

  /**
   * The bet cell: no bet shows nothing; a bet shows the icon in another
   * player's row while hidden, and its amount otherwise.
   */
  function CardCell(card: Option<nat>, hidden: bool, isSelf: bool): (c: Cell)
    ensures c == Blank <==> card.None?
    ensures c == Icon <==> card.Some? && hidden && !isSelf
    ensures c.Amount? ==> card == Some(c.value)
  {
    match card
    case None => Blank
    case Some(v) => if hidden && !isSelf then Icon else Amount(v)
  }

  /**
   * Together with the server's redaction: while a round is hidden, another
   * player's cell shows only whether they bet, never the marker 0 standing
   * in for their card; once revealed it shows their actual bet.
   */
  lemma OtherCellSpec(p: Backend.Player)
    ensures CardCell(Backend.Redact(p, true).card, true, false)
      == (if p.card.None? then Blank else Icon)
    ensures CardCell(Backend.Redact(p, false).card, false, false)
      == (match p.card case None => Blank case Some(v) => Amount(v))
  {
  }

  /** The recipient's own cell always shows their own bet. */
  lemma SelfCellSpec(card: Option<nat>, hidden: bool)
    ensures CardCell(card, hidden, true) == (match card case None => Blank case Some(v) => Amount(v))
  {
  }

  // ---------------------------------------------------------------------------
  // The card buttons

  /** A bet button: the bet it places (`None` withdraws) and whether it is highlighted. */
  datatype Button = Button(bet: Option<nat>, active: bool)

  /**
   * One button per menu card, in menu order, highlighted exactly when it is
   * the recipient's current bet, followed by the never-highlighted "X" button
   * that withdraws the bet.
   */
  function CardButtons(cards: seq<nat>, selfCard: Option<nat>): (r: seq<Button>)
    ensures |r| == |cards| + 1
    ensures forall i :: 0 <= i < |cards| ==> r[i].bet == Some(cards[i])
    ensures forall i :: 0 <= i < |r| ==> (r[i].active <==> i < |cards| && selfCard == Some(cards[i]))
    ensures r[|cards|] == Button(None, false)
  {
    if cards == [] then [Button(None, false)]
    else
      var n := |cards| - 1;
      var rest := CardButtons(cards[..n], selfCard);
      rest[..n] + [Button(Some(cards[n]), Some(cards[n]) == selfCard), Button(None, false)]
  }

  /**
   * A highlighted button places the recipient's bet, and some button is
   * highlighted exactly when that bet is a card of the menu.
   */
  lemma CardButtonsOnMenu(cards: seq<nat>, selfCard: Option<nat>)
    ensures var r := CardButtons(cards, selfCard);
      && ((exists i :: 0 <= i < |r| && r[i].active) <==> selfCard.Some? && selfCard.value in cards)
      && (forall i :: 0 <= i < |r| && r[i].active ==> r[i].bet == selfCard)
  {
    var r := CardButtons(cards, selfCard);
    if selfCard.Some? && selfCard.value in cards {
      var k :| 0 <= k < |cards| && cards[k] == selfCard.value;
      assert r[k].active;
    }
  }

  /** With a menu without repeats (the room keeps it strictly ascending), at most one button is highlighted. */
  lemma CardButtonsActive(cards: seq<nat>, selfCard: Option<nat>)
    requires Backend.StrictlyAscending(cards)
    ensures var r := CardButtons(cards, selfCard);
      forall i, j :: 0 <= i < j < |r| && r[i].active ==> !r[j].active
  {
  }
}
