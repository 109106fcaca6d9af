/** How a block address names a place in the memory: channel, bank, column, rank and row, from the low bits up. */
module DramAddress {
  import opened Bits

  /** The dimensions of the memory; the simulator's are powers of two, so its shifts and masks are these divisions. */
  datatype Geometry = Geometry(channels: nat, banks: nat, columns: nat, ranks: nat, rows: nat)
  {
    predicate Valid() { channels > 0 && banks > 0 && columns > 0 && ranks > 0 && rows > 0 }

    /** The number of blocks the memory holds. */
    function Capacity(): nat { channels * (banks * (columns * (ranks * rows))) }
  }

  function ChannelOf(g: Geometry, a: nat): nat
    requires g.Valid()
  {
    Low(a, g.channels)
  }

  function BankOf(g: Geometry, a: nat): nat
    requires g.Valid()
  {
    Low(Above(a, g.channels), g.banks)
  }

  function ColumnOf(g: Geometry, a: nat): nat
    requires g.Valid()
  {
    Low(Above(Above(a, g.channels), g.banks), g.columns)
  }

  function RankOf(g: Geometry, a: nat): nat
    requires g.Valid()
  {
    Low(Above(Above(Above(a, g.channels), g.banks), g.columns), g.ranks)
  }

  function RowOf(g: Geometry, a: nat): nat
    requires g.Valid()
  {
    Low(Above(Above(Above(Above(a, g.channels), g.banks), g.columns), g.ranks), g.rows)
  }

  /** The address of a place. */
  function Compose(g: Geometry, channel: nat, bank: nat, column: nat, rank: nat, row: nat): nat {
    Join(channel, g.channels, Join(bank, g.banks, Join(column, g.columns, Join(rank, g.ranks, row))))
  }

  /** Every address below the capacity is the address of its coordinates. */
  lemma ComposeCoordinates(g: Geometry, a: nat)
    requires g.Valid() && a < g.Capacity()
    ensures Compose(g, ChannelOf(g, a), BankOf(g, a), ColumnOf(g, a), RankOf(g, a), RowOf(g, a)) == a
  {
    hide Low, Above, Join;
    var b := Above(a, g.channels);
    var c := Above(b, g.banks);
    var d := Above(c, g.columns);
    var e := Above(d, g.ranks);
    AboveBelow(a, g.channels, g.banks * (g.columns * (g.ranks * g.rows)));
    AboveBelow(b, g.banks, g.columns * (g.ranks * g.rows));
    AboveBelow(c, g.columns, g.ranks * g.rows);
    AboveBelow(d, g.ranks, g.rows);
    LowOfSmall(e, g.rows);
    PartsJoin(d, g.ranks);
    PartsJoin(c, g.columns);
    PartsJoin(b, g.banks);
    PartsJoin(a, g.channels);
  }

  /** Every place has an address whose coordinates name that place. */
  lemma CoordinatesCompose(g: Geometry, channel: nat, bank: nat, column: nat, rank: nat, row: nat)
    requires g.Valid() && channel < g.channels && bank < g.banks && column < g.columns && rank < g.ranks && row < g.rows
    ensures var a := Compose(g, channel, bank, column, rank, row);
            && ChannelOf(g, a) == channel && BankOf(g, a) == bank && ColumnOf(g, a) == column
            && RankOf(g, a) == rank && RowOf(g, a) == row
  {
    hide Low, Above, Join;
    var d := Join(rank, g.ranks, row);
    var c := Join(column, g.columns, d);
    var b := Join(bank, g.banks, c);
    JoinParts(rank, g.ranks, row);
    JoinParts(column, g.columns, d);
    JoinParts(bank, g.banks, c);
    JoinParts(channel, g.channels, b);
    LowOfSmall(row, g.rows);
  }

  ghost predicate SamePlace(g: Geometry, a: nat, b: nat)
    requires g.Valid()
  {
    && ChannelOf(g, a) == ChannelOf(g, b) && BankOf(g, a) == BankOf(g, b) && ColumnOf(g, a) == ColumnOf(g, b)
    && RankOf(g, a) == RankOf(g, b) && RowOf(g, a) == RowOf(g, b)
  }

  lemma ZeroParts(m: nat)
    requires m > 0
    ensures Low(0, m) == 0 && Above(0, m) == 0
  {
  }

  /** Address 0 and the first address beyond the capacity share a place. */
  lemma FirstCollision(g: Geometry)
    requires g.Valid()
    ensures SamePlace(g, 0, g.Capacity())
  {
    var d := g.ranks * g.rows;
    var c := g.columns * d;
    var b := g.banks * c;
    assert g.Capacity() == Join(0, g.channels, b) && b == Join(0, g.banks, c) && c == Join(0, g.columns, d) && d == Join(0, g.ranks, g.rows);
    hide Low, Above, Join;
    JoinParts(0, g.channels, b);
    JoinParts(0, g.banks, c);
    JoinParts(0, g.columns, d);
    JoinParts(0, g.ranks, g.rows);
    SelfParts(g.rows);
    ZeroParts(g.channels);
    ZeroParts(g.banks);
    ZeroParts(g.columns);
    ZeroParts(g.ranks);
    ZeroParts(g.rows);
  }

  lemma Positive(x: nat, y: nat)
    requires x > 0 && y > 0
    ensures x * y > 0
  {
  }

  /** Different addresses below `n` are different places exactly if the memory has `n` blocks. */
  lemma PlacesAreDistinct(g: Geometry, n: nat)
    requires g.Valid()
    ensures (forall a: nat, b: nat :: a < n && b < n && SamePlace(g, a, b) ==> a == b) <==> n <= g.Capacity()
  {
    hide Low, Above, Join;
    if n <= g.Capacity() {
      forall a: nat, b: nat | a < n && b < n && SamePlace(g, a, b) ensures a == b {
        ComposeCoordinates(g, a);
        ComposeCoordinates(g, b);
      }
    } else {
      FirstCollision(g);
      Positive(g.ranks, g.rows);
      Positive(g.columns, g.ranks * g.rows);
      Positive(g.banks, g.columns * (g.ranks * g.rows));
      Positive(g.channels, g.banks * (g.columns * (g.ranks * g.rows)));
    }
  }
}
