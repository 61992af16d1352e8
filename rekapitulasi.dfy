/** The recap page (app/kepala_dinas/rekapitulasi/page.tsx): how many
    certificates are paid, how much money came in against the yearly target,
    and the paid amounts per month of each quarter for the chart. */
module Rekapitulasi {
  import opened Wrappers
  import opened SkrdStore

  /** `TARGET_FIXED`: four billion rupiah. */
  const Target: int := 4000000000

  /** The chart scale when nothing is paid in any quarter. */
  const DefaultScale: real := 10000000.0

  /** `status_pembayaran === 'LUNAS'` */
  predicate Paid(r: Record) {
    r.statusPembayaran == Some("LUNAS")
  }

  /** `Number(item.jumlah) || 0`: a null amount counts as zero. */
  function Value(r: Record): int {
    if r.jumlah.Some? then r.jumlah.value else 0
  }

  /** The chart cell a paid row lands in: quarter `month / 3` and month
      `month % 3` of its payment date, when it has one and the quarter is
      within 0 to 3. `month` gives the calendar month (0 to 11 for a real
      date) of a stored day. */
  function Slot(r: Record, month: int -> int): (s: Option<(int, int)>)
    ensures s.Some? ==> 0 <= s.value.0 < 4 && 0 <= s.value.1 < 3
    ensures s.Some? ==> Paid(r) && r.tanggalPelunasan.Some?
    ensures Paid(r) && r.tanggalPelunasan.Some? && 0 <= month(r.tanggalPelunasan.value) < 12 ==>
      s == Some((month(r.tanggalPelunasan.value) / 3, month(r.tanggalPelunasan.value) % 3))
  {
    if Paid(r) && r.tanggalPelunasan.Some? then
      var mo := month(r.tanggalPelunasan.value);
      if 0 <= mo / 3 < 4 then Some((mo / 3, mo % 3)) else None
    else None
  }

  // The specification, row by row from the front of the list.

  function CountPaid(rows: seq<Record>): (n: nat)
    ensures n <= |rows|
  {
    if rows == [] then 0
    else CountPaid(rows[..|rows| - 1]) + (if Paid(rows[|rows| - 1]) then 1 else 0)
  }

  /** `uangMasuk`: the amounts of the paid rows. */
  function Revenue(rows: seq<Record>): int {
    if rows == [] then 0
    else Revenue(rows[..|rows| - 1]) + (if Paid(rows[|rows| - 1]) then Value(rows[|rows| - 1]) else 0)
  }

  /** The amounts of the paid rows that land in cell (`q`, `m`). */
  function Cell(rows: seq<Record>, month: int -> int, q: int, m: int): int {
    if rows == [] then 0
    else
      Cell(rows[..|rows| - 1], month, q, m)
      + (if Slot(rows[|rows| - 1], month) == Some((q, m)) then Value(rows[|rows| - 1]) else 0)
  }

  /** The amounts of the paid rows that land in no cell. */
  function Unplaced(rows: seq<Record>, month: int -> int): int {
    if rows == [] then 0
    else
      Unplaced(rows[..|rows| - 1], month)
      + (if Paid(rows[|rows| - 1]) && Slot(rows[|rows| - 1], month).None? then Value(rows[|rows| - 1]) else 0)
  }

  function QuarterTotal(rows: seq<Record>, month: int -> int, q: int): int {
    Cell(rows, month, q, 0) + Cell(rows, month, q, 1) + Cell(rows, month, q, 2)
  }

  function ChartTotal(rows: seq<Record>, month: int -> int): int {
    QuarterTotal(rows, month, 0) + QuarterTotal(rows, month, 1)
    + QuarterTotal(rows, month, 2) + QuarterTotal(rows, month, 3)
  }

  /** `maxTotalTriwulan` after looking at the first `n` quarters. */
  function MaxQuarter(rows: seq<Record>, month: int -> int, n: nat): int
    requires n <= 4
  {
    if n == 0 then 0
    else
      var t := QuarterTotal(rows, month, n - 1);
      var before := MaxQuarter(rows, month, n - 1);
      if t > before then t else before
  }

  /** `calculatedMax` */
  function Scale(maxQuarter: int): real {
    if maxQuarter > 0 then maxQuarter as real * 1.1 else DefaultScale
  }

  function ChartOf(rows: seq<Record>, month: int -> int): seq<seq<int>> {
    seq(4, q => seq(3, m => Cell(rows, month, q, m)))
  }

  datatype Stats = Stats(
    total: int,
    paid: int,
    paidPercent: real,
    revenue: int,
    target: int,
    revenuePercent: real,
    chart: seq<seq<int>>,
    maxChartValue: real)

  /** A paid row with a payment date in month `mo` (0 to 11) adds its amount
      to the cell of quarter `mo / 3`, month `mo % 3`, and to no other cell. */
  lemma PaidRowAddsToItsCell(rows: seq<Record>, r: Record, month: int -> int, q: int, m: int)
    requires Paid(r) && r.tanggalPelunasan.Some? && 0 <= month(r.tanggalPelunasan.value) < 12
    ensures var mo := month(r.tanggalPelunasan.value);
      Cell(rows + [r], month, q, m)
      == Cell(rows, month, q, m) + (if q == mo / 3 && m == mo % 3 then Value(r) else 0)
  {
    assert (rows + [r])[..|rows + [r]| - 1] == rows;
  }

  /** Every paid amount is either in exactly one chart cell or in no cell:
      the chart and the unplaced amounts add up to the revenue. */
  lemma {:induction false} RevenueSplit(rows: seq<Record>, month: int -> int)
    ensures Revenue(rows) == ChartTotal(rows, month) + Unplaced(rows, month)
    decreases |rows|
  {
    if rows != [] {
      var init := rows[..|rows| - 1];
      RevenueSplit(init, month);
      var r := rows[|rows| - 1];
      var s := Slot(r, month);
      QuarterStep(rows, month, 0);
      QuarterStep(rows, month, 1);
      QuarterStep(rows, month, 2);
      QuarterStep(rows, month, 3);
    }
  }

  /** Adding one row adds its amount to the total of the quarter it lands in. */
  lemma QuarterStep(rows: seq<Record>, month: int -> int, q: int)
    requires rows != []
    ensures var r, s := rows[|rows| - 1], Slot(rows[|rows| - 1], month);
      QuarterTotal(rows, month, q)
      == QuarterTotal(rows[..|rows| - 1], month, q) + (if s.Some? && s.value.0 == q then Value(r) else 0)
  {
  }

  /** With no negative amounts the chart never shows more than came in, and
      shows all of it when every paid row has a payment date in a real month. */
  lemma ChartWithinRevenue(rows: seq<Record>, month: int -> int)
    requires forall i :: 0 <= i < |rows| ==> Value(rows[i]) >= 0
    ensures ChartTotal(rows, month) <= Revenue(rows)
    ensures (forall i :: 0 <= i < |rows| && Paid(rows[i]) ==> Slot(rows[i], month).Some?)
            ==> ChartTotal(rows, month) == Revenue(rows)
  {
    RevenueSplit(rows, month);
    UnplacedBounds(rows, month);
  }

  lemma {:induction false} UnplacedBounds(rows: seq<Record>, month: int -> int)
    requires forall i :: 0 <= i < |rows| ==> Value(rows[i]) >= 0
    ensures Unplaced(rows, month) >= 0
    ensures (forall i :: 0 <= i < |rows| && Paid(rows[i]) ==> Slot(rows[i], month).Some?)
            ==> Unplaced(rows, month) == 0
    decreases |rows|
  {
    if rows != [] {
      var init := rows[..|rows| - 1];
      assert forall i :: 0 <= i < |init| ==> init[i] == rows[i];
      UnplacedBounds(init, month);
    }
  }

  /** The chart scale is the largest quarter total: at least every quarter,
      and either one of them or zero. */
  lemma {:induction false} MaxQuarterIsLargest(rows: seq<Record>, month: int -> int, n: nat)
    requires n <= 4
    ensures MaxQuarter(rows, month, n) >= 0
    ensures forall q :: 0 <= q < n ==> QuarterTotal(rows, month, q) <= MaxQuarter(rows, month, n)
    ensures MaxQuarter(rows, month, n) == 0
            || exists q :: 0 <= q < n && MaxQuarter(rows, month, n) == QuarterTotal(rows, month, q)
    decreases n
  {
    if n > 0 {
      MaxQuarterIsLargest(rows, month, n - 1);
    }
  }

  /** `skrdData.filter(item => item.status_pembayaran === 'LUNAS').length` */
  method CountPaidRows(rows: seq<Record>) returns (lunas: int)
    ensures lunas == CountPaid(rows)
  {
    lunas := 0;
    var i := 0;
    while i < |rows|
      invariant 0 <= i <= |rows| && lunas == CountPaid(rows[..i])
    {
      if Paid(rows[i]) {
        lunas := lunas + 1;
      }
      assert rows[..i + 1][..i] == rows[..i];
      i := i + 1;
    }
    assert rows[..|rows|] == rows;
  }

  /** The `forEach` over the rows: the money that came in, and the chart
      filled in place cell by cell. */
  method FillChart(rows: seq<Record>, month: int -> int) returns (uangMasuk: int, tempChart: array2<int>)
    ensures uangMasuk == Revenue(rows)
    ensures tempChart.Length0 == 4 && tempChart.Length1 == 3
    ensures forall q, m :: 0 <= q < 4 && 0 <= m < 3 ==> tempChart[q, m] == Cell(rows, month, q, m)
  {
    uangMasuk := 0;
    tempChart := new int[4, 3]((_, _) => 0);
    var i := 0;
    while i < |rows|
      invariant 0 <= i <= |rows| && uangMasuk == Revenue(rows[..i])
      invariant forall q, m :: 0 <= q < 4 && 0 <= m < 3 ==> tempChart[q, m] == Cell(rows[..i], month, q, m)
    {
      var item := rows[i];
      var nilai := Value(item);
      if Paid(item) {
        uangMasuk := uangMasuk + nilai;
        if item.tanggalPelunasan.Some? {
          var mo := month(item.tanggalPelunasan.value);
          var triwulanIdx := mo / 3;
          var monthIdx := mo % 3;
          if 0 <= triwulanIdx < 4 {
            tempChart[triwulanIdx, monthIdx] := tempChart[triwulanIdx, monthIdx] + nilai;
          }
        }
      }
      assert rows[..i + 1][..i] == rows[..i];
      i := i + 1;
    }
    assert rows[..|rows|] == rows;
  }

  /** The largest quarter total of a filled chart. */
  method LargestQuarter(rows: seq<Record>, month: int -> int, tempChart: array2<int>) returns (maxTotalTriwulan: int)
    requires tempChart.Length0 == 4 && tempChart.Length1 == 3
    requires forall q, m :: 0 <= q < 4 && 0 <= m < 3 ==> tempChart[q, m] == Cell(rows, month, q, m)
    ensures maxTotalTriwulan == MaxQuarter(rows, month, 4)
  {
    maxTotalTriwulan := 0;
    var q := 0;
    while q < 4
      invariant 0 <= q <= 4 && maxTotalTriwulan == MaxQuarter(rows, month, q)
    {
      var totalPerTriwulan := tempChart[q, 0] + tempChart[q, 1] + tempChart[q, 2];
      if totalPerTriwulan > maxTotalTriwulan {
        maxTotalTriwulan := totalPerTriwulan;
      }
      q := q + 1;
    }
  }

  function PaidPercent(paid: int, total: int): real {
    if total > 0 then paid as real / total as real * 100.0 else 0.0
  }

  function RevenuePercent(revenue: int): real {
    revenue as real / Target as real * 100.0
  }

  /** `calculateStatistics`. A failed read sets nothing. */
  method CalculateStatistics(rows: seq<Record>, month: int -> int, fails: bool) returns (stats: Option<Stats>)
    ensures fails <==> stats.None?
    ensures stats.Some? ==>
      stats.value == Stats(|rows|, CountPaid(rows), PaidPercent(CountPaid(rows), |rows|),
                           Revenue(rows), Target, RevenuePercent(Revenue(rows)),
                           ChartOf(rows, month), Scale(MaxQuarter(rows, month, 4)))
  {
    if fails {
      return None;
    }
    var total := |rows|;
    var lunas := CountPaidRows(rows);
    var uangMasuk, tempChart := FillChart(rows, month);
    var maxTotalTriwulan := LargestQuarter(rows, month, tempChart);
    var chart := [[tempChart[0, 0], tempChart[0, 1], tempChart[0, 2]],
                  [tempChart[1, 0], tempChart[1, 1], tempChart[1, 2]],
                  [tempChart[2, 0], tempChart[2, 1], tempChart[2, 2]],
                  [tempChart[3, 0], tempChart[3, 1], tempChart[3, 2]]];
    var want := ChartOf(rows, month);
    forall q | 0 <= q < 4 ensures chart[q] == want[q] {
      assert |chart[q]| == |want[q]| == 3;
    }
    return Some(Stats(total, lunas, PaidPercent(lunas, total), uangMasuk, Target,
                      RevenuePercent(uangMasuk), chart, Scale(maxTotalTriwulan)));
  }

  /** At most every certificate is paid: the paid share is a percentage. */
  lemma PaidPercentBounded(rows: seq<Record>)
    ensures 0.0 <= PaidPercent(CountPaid(rows), |rows|) <= 100.0
  {
    if |rows| > 0 {
      ShareBounded(CountPaid(rows) as real, |rows| as real);
    }
  }

  lemma ShareBounded(p: real, t: real)
    requires 0.0 <= p <= t && t > 0.0
    ensures 0.0 <= p / t * 100.0 <= 100.0
  {
    assert p / t <= 1.0;
  }
}
