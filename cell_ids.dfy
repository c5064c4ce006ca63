/** Cell identifiers of the word-search grid: a cell at row `r`, column `c`
    is named by the string `"r-c"` (both numbers in decimal), and the id is
    read back by splitting at the dash and converting both halves to numbers. */
module CellIds {
  import opened Common
  import opened Decimal

  /** A grid position: row and column. */
  datatype Coord = Coord(row: int, col: int)

  /** `getCellId(row, col)`: the id `"row-col"`. */
  function CellId(row: nat, col: nat): string {
    NatToString(row) + "-" + NatToString(col)
  }

  /** `getCoordinates(cellId)`: split at the dash and read both halves as
      numbers. Only ids of the shape digits-dash-digits give a position; the
      source would produce NaN coordinates for any other string. */
  function ParseId(id: string): (r: Option<Coord>)
    ensures r.Some? ==> r.value.row >= 0 && r.value.col >= 0
  {
    match FirstIndex(id, '-')
    case None => None
    case Some(k) =>
      var rowText, colText := id[..k], id[k + 1..];
      if |rowText| > 0 && |colText| > 0 && AllDigits(rowText) && AllDigits(colText)
      then Some(Coord(DigitsToNat(rowText), DigitsToNat(colText)))
      else None
  }

  /** The dash in a printed id is the one between the two numbers. */
  lemma DashOfCellId(row: nat, col: nat)
    ensures FirstIndex(CellId(row, col), '-') == Some(|NatToString(row)|)
  {
    var a := NatToString(row);
    var s := CellId(row, col);
    assert s[|a|] == '-';
    assert forall k :: 0 <= k < |a| ==> s[k] == a[k];
  }

  /** Id round trip: `getCoordinates(getCellId(r, c)) == {row: r, col: c}`. */
  lemma CellIdRoundTrip(row: nat, col: nat)
    ensures ParseId(CellId(row, col)) == Some(Coord(row, col))
  {
    var a, b := NatToString(row), NatToString(col);
    var s := CellId(row, col);
    DashOfCellId(row, col);
    assert s[..|a|] == a;
    assert s[|a| + 1..] == b;
    DecimalRoundTrip(row);
    DecimalRoundTrip(col);
  }

  /** Distinct positions have distinct ids. */
  lemma CellIdInjective(r1: nat, c1: nat, r2: nat, c2: nat)
    ensures CellId(r1, c1) == CellId(r2, c2) <==> r1 == r2 && c1 == c2
  {
    CellIdRoundTrip(r1, c1);
    CellIdRoundTrip(r2, c2);
  }
}
