/** The refund policy table and the amount it yields. */
module Refunds {
  import opened Tables

  /** A half-open band of hours before the screening; percents are floating point in the table. */
  datatype Policy = Policy(hoursFrom: int, hoursTo: int, refundPercent: real)

  predicate Covers(p: Policy, hours: real) {
    p.hoursFrom as real <= hours < p.hoursTo as real
  }

  /** findFirst without an order: the first covering row of the table as it happens to be laid out. */
  function FindRefundPolicy(table: seq<Policy>, hours: real): Option<Policy> {
    if table == [] then None
    else if Covers(table[0], hours) then Some(table[0])
    else FindRefundPolicy(table[1..], hours)
  }

  function RefundPercent(table: seq<Policy>, hours: real): real {
    match FindRefundPolicy(table, hours)
    case Some(p) => p.refundPercent
    case None => 0.0
  }

  function HoursUntil(startTime: int, now: int): real {
    (startTime - now) as real / 3600000.0
  }

  /** Math.round: halves go up. */
  function Round(x: real): int {
    (x + 0.5).Floor
  }

  function RefundAmount(amount: int, percent: real): int {
    Round(amount as real * percent / 100.0)
  }

  predicate Percents(table: seq<Policy>) {
    forall i | 0 <= i < |table| :: 0.0 <= table[i].refundPercent <= 100.0
  }

  /** The bands have no hour in common. */
  predicate Apart(p: Policy, q: Policy) {
    p.hoursTo <= q.hoursFrom || q.hoursTo <= p.hoursFrom
  }

  lemma {:induction false} FindFirstCovering(table: seq<Policy>, hours: real)
    ensures FindRefundPolicy(table, hours).Some? <==> exists i | 0 <= i < |table| :: Covers(table[i], hours)
    ensures FindRefundPolicy(table, hours).Some? ==>
              FindRefundPolicy(table, hours).value in table && Covers(FindRefundPolicy(table, hours).value, hours)
  {
    if table != [] && !Covers(table[0], hours) {
      FindFirstCovering(table[1..], hours);
      if i :| 0 <= i < |table| && Covers(table[i], hours) {
        assert table[1..][i - 1] == table[i];
      }
    }
  }

  /** At a given hour the percent is the same for every row order exactly when all covering rows agree on it. */
  lemma OrderIrrelevantIff(table: seq<Policy>, hours: real)
    ensures (forall other: seq<Policy> | multiset(other) == multiset(table) ::
               RefundPercent(other, hours) == RefundPercent(table, hours))
            <==>
            (forall i, j | 0 <= i < |table| && 0 <= j < |table| && Covers(table[i], hours) && Covers(table[j], hours) ::
               table[i].refundPercent == table[j].refundPercent)
  {
    if forall other: seq<Policy> | multiset(other) == multiset(table) ::
         RefundPercent(other, hours) == RefundPercent(table, hours)
    {
      forall i, j | 0 <= i < |table| && 0 <= j < |table| && Covers(table[i], hours) && Covers(table[j], hours)
        ensures table[i].refundPercent == table[j].refundPercent
      {
        ToFront(table, i);
        ToFront(table, j);
        assert RefundPercent([table[i]] + Without(table, i), hours) == table[i].refundPercent;
        assert RefundPercent([table[j]] + Without(table, j), hours) == table[j].refundPercent;
      }
    }
    if forall i, j | 0 <= i < |table| && 0 <= j < |table| && Covers(table[i], hours) && Covers(table[j], hours) ::
         table[i].refundPercent == table[j].refundPercent
    {
      forall other: seq<Policy> | multiset(other) == multiset(table)
        ensures RefundPercent(other, hours) == RefundPercent(table, hours)
      {
        SameRows(table, other);
        FindFirstCovering(table, hours);
        FindFirstCovering(other, hours);
      }
    }
  }

  function Without(table: seq<Policy>, i: int): seq<Policy>
    requires 0 <= i < |table|
  {
    table[..i] + table[i + 1..]
  }

  lemma ToFront(table: seq<Policy>, i: int)
    requires 0 <= i < |table|
    ensures multiset([table[i]] + Without(table, i)) == multiset(table)
    ensures ([table[i]] + Without(table, i))[0] == table[i]
  {
    assert table == table[..i] + [table[i]] + table[i + 1..];
  }

  lemma SameRows(table: seq<Policy>, other: seq<Policy>)
    requires multiset(other) == multiset(table)
    ensures forall p :: p in table <==> p in other
  {
    forall p
      ensures p in table <==> p in other
    {
      assert p in table <==> p in multiset(table);
      assert p in other <==> p in multiset(other);
    }
  }

  /** Pairwise disjoint bands: no row order can change the refund at any hour. */
  lemma DisjointBandsOrderFree(table: seq<Policy>, other: seq<Policy>, hours: real)
    requires forall i, j | 0 <= i < j < |table| :: Apart(table[i], table[j])
    requires multiset(other) == multiset(table)
    ensures RefundPercent(other, hours) == RefundPercent(table, hours)
  {
    OrderIrrelevantIff(table, hours);
  }

  /** A percent in range never refunds more than was paid, and rounding moves less than a cent's half. */
  lemma RefundWithinAmount(amount: int, percent: real)
    requires 0 <= amount && 0.0 <= percent <= 100.0
    ensures 0 <= RefundAmount(amount, percent) <= amount
    ensures var exact := amount as real * percent / 100.0;
            -0.5 < RefundAmount(amount, percent) as real - exact <= 0.5
  {
    var a := amount as real;
    assert 0.0 <= a * percent <= a * 100.0;
    assert 0.0 <= a * percent / 100.0 <= a;
  }

  /** Amounts are whole prices in cents, so whole percents never need rounding. */
  lemma WholePercentExact(price: int, percent: int)
    ensures RefundAmount(price * 100, percent as real) == price * percent
  {
  }

  lemma RefundMonotone(amount: int, less: real, more: real)
    requires 0 <= amount && less <= more
    ensures RefundAmount(amount, less) <= RefundAmount(amount, more)
  {
  }

  /** The three seeded bands. */
  function Seeded(): seq<Policy> {
    [Policy(48, 100000, 100.0), Policy(24, 48, 50.0), Policy(0, 24, 0.0)]
  }

  lemma SeededPercent(hours: real)
    ensures RefundPercent(Seeded(), hours) ==
            if 48.0 <= hours < 100000.0 then 100.0 else if 24.0 <= hours < 48.0 then 50.0 else 0.0
  {
    var t := Seeded();
    assert t[1..][1..][1..] == [];
    assert t[1..][0] == t[1] && t[1..][1..][0] == t[2];
    assert FindRefundPolicy(t[1..][1..], hours) == if Covers(t[2], hours) then Some(t[2]) else None;
    assert FindRefundPolicy(t[1..], hours) == if Covers(t[1], hours) then Some(t[1]) else FindRefundPolicy(t[1..][1..], hours);
  }

  /** Waiting never raises the seeded percent, except across the far end of the last band. */
  lemma SeededMonotoneIff(earlier: real, later: real)
    requires later <= earlier
    ensures RefundPercent(Seeded(), later) <= RefundPercent(Seeded(), earlier) <==>
            earlier < 100000.0 || later < 24.0 || 100000.0 <= later
  {
    SeededPercent(earlier);
    SeededPercent(later);
  }

  /** Hence, for a screening within the seeded bands, a later cancellation never refunds more. */
  lemma SeededRefundNeverGrows(amount: int, startTime: int, earlier: int, later: int)
    requires 0 <= amount && earlier <= later && HoursUntil(startTime, earlier) < 100000.0
    ensures RefundAmount(amount, RefundPercent(Seeded(), HoursUntil(startTime, later))) <=
            RefundAmount(amount, RefundPercent(Seeded(), HoursUntil(startTime, earlier)))
  {
    assert HoursUntil(startTime, later) <= HoursUntil(startTime, earlier);
    SeededMonotoneIff(HoursUntil(startTime, earlier), HoursUntil(startTime, later));
    RefundMonotone(amount, RefundPercent(Seeded(), HoursUntil(startTime, later)), RefundPercent(Seeded(), HoursUntil(startTime, earlier)));
  }

  lemma PercentInRange(table: seq<Policy>, hours: real)
    requires Percents(table)
    ensures 0.0 <= RefundPercent(table, hours) <= 100.0
  {
    FindFirstCovering(table, hours);
  }

  /** Two bands that overlap and differ: at 30 hours one row order refunds half, the other all. */
  lemma OrderMatters()
    ensures var half, all := Policy(0, 48, 50.0), Policy(24, 72, 100.0);
            RefundPercent([half, all], 30.0) == 50.0 && RefundPercent([all, half], 30.0) == 100.0
  {
  }

  /** Just outside the last seeded band nothing is refunded, and an hour later everything is. */
  lemma SeededPercentGrows()
    ensures RefundPercent(Seeded(), 100000.0) == 0.0 && RefundPercent(Seeded(), 99999.0) == 100.0
  {
    SeededPercent(100000.0);
    SeededPercent(99999.0);
  }

  /** The seeded percent by the clock: all until two days before the start, half until one day before, then nothing. */
  lemma SeededByClock(startTime: int, now: int)
    ensures RefundPercent(Seeded(), HoursUntil(startTime, now)) ==
            if 172800000 <= startTime - now < 360000000000 then 100.0
            else if 86400000 <= startTime - now < 172800000 then 50.0 else 0.0
  {
    SeededPercent(HoursUntil(startTime, now));
  }

  /** Exactly one seeded band covers each hour up to the far end. */
  lemma SeededTile(hours: real)
    requires 0.0 <= hours < 100000.0
    ensures |Seeded()| == 3
    ensures exists i | 0 <= i < 3 :: Covers(Seeded()[i], hours) && forall j | 0 <= j < 3 && j != i :: !Covers(Seeded()[j], hours)
  {
    var i := if hours >= 48.0 then 0 else if hours >= 24.0 then 1 else 2;
    assert Covers(Seeded()[i], hours);
    assert forall j | 0 <= j < 3 && j != i :: !Covers(Seeded()[j], hours);
  }
}
