/** The column settings dialog: show or hide a column, and move a column
    one place up or down. */
module ColumnCustomizer {
  import opened Types

  /** `toggle(id)`: flips `visible` on the columns with that id. */
  function Toggle(cols: seq<ColumnDef>, id: LogField): (r: seq<ColumnDef>)
    ensures |r| == |cols|
    ensures forall k :: 0 <= k < |cols| ==>
      r[k].id == cols[k].id && r[k].labelText == cols[k].labelText &&
      r[k].width == cols[k].width && r[k].isMono == cols[k].isMono &&
      r[k].visible == (if cols[k].id == id then !cols[k].visible else cols[k].visible)
  {
    if cols == [] then []
    else [if cols[0].id == id then cols[0].(visible := !cols[0].visible) else cols[0]] + Toggle(cols[1..], id)
  }

  /** Toggling the same column twice gives the columns back. */
  lemma {:induction false} ToggleTwice(cols: seq<ColumnDef>, id: LogField)
    ensures Toggle(Toggle(cols, id), id) == cols
  {
    var r := Toggle(Toggle(cols, id), id);
    assert forall k :: 0 <= k < |cols| ==> r[k] == cols[k];
  }

  datatype Direction = Up | Down

  /** The index a move swaps with. */
  function Neighbour(idx: int, dir: Direction): int {
    if dir == Up then idx - 1 else idx + 1
  }

  /** The columns after `move(idx, dir)`: the column at idx and its
      neighbour trade places when the neighbour exists. */
  function Moved(cols: seq<ColumnDef>, idx: nat, dir: Direction): (r: seq<ColumnDef>)
    requires idx < |cols|
    ensures |r| == |cols|
    ensures var t := Neighbour(idx, dir);
            if 0 <= t < |cols| then
              r[idx] == cols[t] && r[t] == cols[idx] &&
              forall k :: 0 <= k < |cols| && k != idx && k != t ==> r[k] == cols[k]
            else r == cols
  {
    var t := Neighbour(idx, dir);
    if 0 <= t < |cols| then cols[idx := cols[t]][t := cols[idx]] else cols
  }

  /** `move`: copies the columns into a fresh array and swaps two cells. */
  method Move(columns: seq<ColumnDef>, idx: nat, dir: Direction) returns (r: seq<ColumnDef>)
    requires idx < |columns|
    ensures r == Moved(columns, idx, dir)
  {
    var newCols := new ColumnDef[|columns|](i requires 0 <= i < |columns| => columns[i]);
    var target := if dir == Up then idx - 1 else idx + 1;
    if 0 <= target < newCols.Length {
      newCols[idx], newCols[target] := newCols[target], newCols[idx];
    }
    r := newCols[..];
  }

  /** A move is a permutation of the columns. */
  lemma {:induction false} MovedPermutes(cols: seq<ColumnDef>, idx: nat, dir: Direction)
    requires idx < |cols|
    ensures multiset(Moved(cols, idx, dir)) == multiset(cols)
  {
    var t := Neighbour(idx, dir);
    if 0 <= t < |cols| {
      var once := cols[idx := cols[t]];
      assert multiset(once) == multiset(cols) - multiset{cols[idx]} + multiset{cols[t]};
      assert once[t] == cols[t] by {
        assert t != idx;
      }
      assert multiset(once[t := cols[idx]]) == multiset(once) - multiset{cols[t]} + multiset{cols[idx]};
    }
  }

  /** Moving a column down and then moving it back up restores the order. */
  lemma {:induction false} DownThenUp(cols: seq<ColumnDef>, idx: nat)
    requires idx + 1 < |cols|
    ensures Moved(Moved(cols, idx, Down), idx + 1, Up) == cols
  {
    var r := Moved(Moved(cols, idx, Down), idx + 1, Up);
    assert forall k :: 0 <= k < |cols| ==> r[k] == cols[k];
  }
}
