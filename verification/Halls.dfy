/** Seat grids: spreadsheet-style row labels and the seats of a new hall. */
module Halls {
  import opened Decimals

  function Letter(d: int): char
    requires 0 <= d < 26
  {
    ('A' as int + d) as char
  }

  function LetterValue(c: char): int {
    c as int - 'A' as int
  }

  function RowLabel(n: nat): (text: string)
    ensures text != []
  {
    if n < 26 then [Letter(n)] else RowLabel(n / 26 - 1) + [Letter(n % 26)]
  }

  predicate IsLabel(s: string) {
    s != [] && forall i | 0 <= i < |s| :: 'A' <= s[i] <= 'Z'
  }

  /** Reads a label back as a row index: base 26 with digits 1 to 26. */
  function RowIndex(s: string): nat
    requires IsLabel(s)
  {
    var last := LetterValue(s[|s| - 1]);
    if |s| == 1 then last else (RowIndex(s[..|s| - 1]) + 1) * 26 + last
  }

  lemma {:induction false} IndexOfLabel(n: nat)
    ensures IsLabel(RowLabel(n)) && RowIndex(RowLabel(n)) == n
  {
    if n >= 26 {
      IndexOfLabel(n / 26 - 1);
      assert RowLabel(n)[..|RowLabel(n)| - 1] == RowLabel(n / 26 - 1);
    }
  }

  lemma {:induction false} LabelOfIndex(s: string)
    requires IsLabel(s)
    ensures RowLabel(RowIndex(s)) == s
  {
    if |s| == 1 {
      assert s == [s[0]];
    } else {
      LabelOfIndex(s[..|s| - 1]);
      var last := LetterValue(s[|s| - 1]);
      assert RowIndex(s) / 26 - 1 == RowIndex(s[..|s| - 1]) && RowIndex(s) % 26 == last;
      assert s == s[..|s| - 1] + [Letter(last)];
    }
  }

  /** Row labels are a bijection between the naturals and the non-empty strings over A to Z. */
  lemma RowLabelBijective(n: nat, s: string)
    requires IsLabel(s)
    ensures RowLabel(n) == s <==> n == RowIndex(s)
  {
    IndexOfLabel(n);
    LabelOfIndex(s);
  }

  datatype Seat = Seat(hallId: int, row: string, number: string)

  datatype Hall = Hall(name: string, capacity: int)

  /** One row of seats, numbered from 1. */
  function SeatRow(hallId: int, row: string, seatsPerRow: nat): seq<Seat> {
    if seatsPerRow == 0 then [] else SeatRow(hallId, row, seatsPerRow - 1) + [Seat(hallId, row, Decimal(seatsPerRow))]
  }

  function Grid(hallId: int, rows: nat, seatsPerRow: nat): seq<Seat> {
    if rows == 0 then [] else Grid(hallId, rows - 1, seatsPerRow) + SeatRow(hallId, RowLabel(rows - 1), seatsPerRow)
  }

  lemma {:induction false} SeatRowAt(hallId: int, row: string, seatsPerRow: nat)
    ensures |SeatRow(hallId, row, seatsPerRow)| == seatsPerRow
    ensures forall s | 0 <= s < seatsPerRow :: SeatRow(hallId, row, seatsPerRow)[s] == Seat(hallId, row, Decimal(s + 1))
  {
    if seatsPerRow > 0 {
      SeatRowAt(hallId, row, seatsPerRow - 1);
    }
  }

  lemma RowsTimes(rows: nat, seatsPerRow: nat)
    requires rows > 0
    ensures rows * seatsPerRow == (rows - 1) * seatsPerRow + seatsPerRow
    ensures 0 <= (rows - 1) * seatsPerRow
  {
  }

  lemma {:induction false} GridSize(hallId: int, rows: nat, seatsPerRow: nat)
    ensures |Grid(hallId, rows, seatsPerRow)| == rows * seatsPerRow
  {
    if rows > 0 {
      GridSize(hallId, rows - 1, seatsPerRow);
      SeatRowAt(hallId, RowLabel(rows - 1), seatsPerRow);
      RowsTimes(rows, seatsPerRow);
    }
  }

  /** Every place of the grid is one cell: a row, and a seat in that row. */
  lemma {:induction false} CellAt(hallId: int, rows: nat, seatsPerRow: nat, k: nat) returns (r: nat, s: nat)
    requires k < |Grid(hallId, rows, seatsPerRow)|
    ensures r < rows && s < seatsPerRow && k == r * seatsPerRow + s
    ensures Grid(hallId, rows, seatsPerRow)[k] == Seat(hallId, RowLabel(r), Decimal(s + 1))
  {
    var before := Grid(hallId, rows - 1, seatsPerRow);
    GridSize(hallId, rows - 1, seatsPerRow);
    SeatRowAt(hallId, RowLabel(rows - 1), seatsPerRow);
    if k < |before| {
      r, s := CellAt(hallId, rows - 1, seatsPerRow, k);
    } else {
      r, s := rows - 1, k - |before|;
    }
  }

  /** ... and every cell has its place. */
  lemma {:induction false} GridAt(hallId: int, rows: nat, seatsPerRow: nat, r: nat, s: nat)
    requires r < rows && s < seatsPerRow
    ensures 0 <= r * seatsPerRow + s < |Grid(hallId, rows, seatsPerRow)|
    ensures Grid(hallId, rows, seatsPerRow)[r * seatsPerRow + s] == Seat(hallId, RowLabel(r), Decimal(s + 1))
  {
    var before := Grid(hallId, rows - 1, seatsPerRow);
    GridSize(hallId, rows - 1, seatsPerRow);
    SeatRowAt(hallId, RowLabel(rows - 1), seatsPerRow);
    if r < rows - 1 {
      GridAt(hallId, rows - 1, seatsPerRow, r, s);
    }
  }

  /** No two seats of a grid share row and number. */
  lemma GridDistinct(hallId: int, rows: nat, seatsPerRow: nat, k: nat, l: nat)
    requires k < l < |Grid(hallId, rows, seatsPerRow)|
    ensures Grid(hallId, rows, seatsPerRow)[k] != Grid(hallId, rows, seatsPerRow)[l]
  {
    var r, s := CellAt(hallId, rows, seatsPerRow, k);
    var r', s' := CellAt(hallId, rows, seatsPerRow, l);
    IndexOfLabel(r);
    IndexOfLabel(r');
    DecimalInjective(s + 1, s' + 1);
  }

  class HallsRepository {
    var halls: map<int, Hall>
    var seats: seq<Seat>
    var nextId: int

    /** Seats belong to halls, and (hall, row, number) is unique over the whole table. */
    ghost predicate Valid()
      reads this
    {
      && (forall id | id in halls :: id < nextId)
      && (forall k | 0 <= k < |seats| :: seats[k].hallId in halls)
      && (forall k, l | 0 <= k < l < |seats| :: seats[k] != seats[l])
    }

    constructor ()
      ensures Valid() && halls == map[] && seats == []
    {
      halls, seats, nextId := map[], [], 1;
    }

    method LabelOfRow(index: nat) returns (text: string)
      ensures text == RowLabel(index)
    {
      var n: int := index;
      text := [Letter(n % 26)];
      n := n / 26 - 1;
      while n >= 0
        invariant -1 <= n
        invariant if n >= 0 then RowLabel(n) + text == RowLabel(index) else text == RowLabel(index)
      {
        text := [Letter(n % 26)] + text;
        n := n / 26 - 1;
      }
    }

    /** The hall and its whole grid, in one transaction; the unique constraint is met for every input. */
    method CreateHallWithSeats(name: string, rows: nat, seatsPerRow: nat) returns (id: int)
      requires Valid()
      modifies this
      ensures Valid()
      ensures id !in old(halls) && halls == old(halls)[id := Hall(name, rows * seatsPerRow)]
      ensures seats == old(seats) + Grid(id, rows, seatsPerRow)
      ensures |seats| == |old(seats)| + halls[id].capacity
    {
      id := nextId;
      nextId := nextId + 1;
      halls := halls[id := Hall(name, rows * seatsPerRow)];
      var grid: seq<Seat> := [];
      for r := 0 to rows
        invariant grid == Grid(id, r, seatsPerRow)
        invariant halls == old(halls)[id := Hall(name, rows * seatsPerRow)] && seats == old(seats) && nextId == id + 1
      {
        var row := LabelOfRow(r);
        var before := grid;
        for s := 1 to seatsPerRow + 1
          invariant grid == before + SeatRow(id, row, s - 1)
          invariant halls == old(halls)[id := Hall(name, rows * seatsPerRow)] && seats == old(seats) && nextId == id + 1
        {
          grid := grid + [Seat(id, row, Decimal(s))];
        }
      }
      GridSize(id, rows, seatsPerRow);
      forall k, l | 0 <= k < l < |grid| ensures grid[k] != grid[l] {
        GridDistinct(id, rows, seatsPerRow, k, l);
      }
      GridHall(id, rows, seatsPerRow);
      seats := seats + grid;
    }
  }

  lemma {:induction false} GridHall(hallId: int, rows: nat, seatsPerRow: nat)
    ensures forall k | 0 <= k < |Grid(hallId, rows, seatsPerRow)| :: Grid(hallId, rows, seatsPerRow)[k].hallId == hallId
  {
    if rows > 0 {
      GridHall(hallId, rows - 1, seatsPerRow);
      SeatRowAt(hallId, RowLabel(rows - 1), seatsPerRow);
    }
  }

  /** Past Z the labels go on as in a spreadsheet, and seats carry their number in decimal. */
  lemma FirstLabels()
    ensures RowLabel(0) == "A" && RowLabel(25) == "Z" && RowLabel(26) == "AA" && RowLabel(27) == "AB"
    ensures RowLabel(52) == "BA" && RowLabel(701) == "ZZ" && RowLabel(702) == "AAA"
    ensures Decimal(9) == "9" && Decimal(10) == "10" && Decimal(120) == "120"
  {
    assert RowLabel(701 / 26 - 1) == "Z" && RowLabel(702 / 26 - 1) == "AA";
    assert Decimal(12) == "12";
  }
}
