/** The lossless encoding of a list of cell voltages as a map with numbered keys
    (mapCellVoltages in internal/timescale/timescale.go). */
module CellVoltages {

  function Digit(d: nat): char
    requires d < 10
  {
    '0' + d as char
  }

  /** The %d verb on a non-negative number. */
  function Decimal(n: nat): string {
    if n < 10 then [Digit(n)] else Decimal(n / 10) + [Digit(n % 10)]
  }

  /** The number a string of digits stands for. */
  function Value(s: string): int {
    if s == "" then 0 else 10 * Value(s[..|s| - 1]) + (s[|s| - 1] as int - '0' as int)
  }

  /** Printing loses nothing. */
  lemma {:induction false} DecimalRoundTrip(n: nat)
    ensures Value(Decimal(n)) == n
  {
    if n >= 10 {
      DecimalRoundTrip(n / 10);
      assert Decimal(n)[..|Decimal(n)| - 1] == Decimal(n / 10);
    }
  }

  /** It prints digits only, and no zero in front. */
  lemma {:induction false} DecimalIsPlain(n: nat)
    ensures |Decimal(n)| > 0 && forall i | 0 <= i < |Decimal(n)| :: '0' <= Decimal(n)[i] <= '9'
    ensures Decimal(n)[0] == '0' ==> n == 0 && Decimal(n) == "0"
  {
    if n >= 10 { DecimalIsPlain(n / 10); }
  }

  function CellKey(i: nat): string {
    "cell_" + Decimal(i)
  }

  /** Different cells have different keys. */
  lemma CellKeysDistinct(i: nat, j: nat)
    requires CellKey(i) == CellKey(j)
    ensures i == j
  {
    assert CellKey(i)[5..] == Decimal(i) && CellKey(j)[5..] == Decimal(j);
    DecimalRoundTrip(i);
    DecimalRoundTrip(j);
  }

  /** Reading the cells back out of a map, by number. */
  function CellsOf<V>(m: map<string, V>): seq<V>
    requires forall i: nat | i < |m| :: CellKey(i) in m
  {
    seq(|m|, (i: nat) requires i < |m| => m[CellKey(i)])
  }

  method MapCellVoltages<V>(cellVoltages: seq<V>) returns (voltages: map<string, V>)
    ensures forall i: nat | i < |voltages| :: CellKey(i) in voltages
    ensures CellsOf(voltages) == cellVoltages
    ensures |voltages| == |cellVoltages|
    ensures forall i: nat | i < |cellVoltages| ::
              "cell_" + Decimal(i) in voltages && voltages["cell_" + Decimal(i)] == cellVoltages[i]
  {
    voltages := map[];
    for i := 0 to |cellVoltages|
      invariant |voltages| == i
      invariant forall j: nat | j < i :: CellKey(j) in voltages && voltages[CellKey(j)] == cellVoltages[j]
      invariant forall k | k in voltages :: exists j: nat | j < i :: k == CellKey(j)
    {
      KeyUnused(voltages, i);
      forall j: nat | j < i ensures CellKey(j) != CellKey(i) {
        if CellKey(j) == CellKey(i) { CellKeysDistinct(j, i); }
      }
      voltages := voltages[CellKey(i) := cellVoltages[i]];
    }
    forall i: nat | i < |cellVoltages|
      ensures "cell_" + Decimal(i) in voltages && voltages["cell_" + Decimal(i)] == cellVoltages[i]
    {
      assert CellKey(i) in voltages;
    }
  }

  lemma KeyUnused<V>(voltages: map<string, V>, i: nat)
    requires forall k | k in voltages :: exists j: nat | j < i :: k == CellKey(j)
    ensures CellKey(i) !in voltages
  {
    if CellKey(i) in voltages {
      var j: nat :| j < i && CellKey(i) == CellKey(j);
      CellKeysDistinct(i, j);
    }
  }
}
