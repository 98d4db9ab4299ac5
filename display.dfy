/** `display_processes` (myps.py:41-46): a header, a line of 65 dashes, and
    one line per record, each cell left-aligned in a fixed-width field. The
    printed lines are the result; a record without one of the eight column
    keys stops the printing with a KeyError. */
module Display {
  import opened PyText
  import opened ProcInfo

  const Widths: seq<nat> := [6, 6, 6, 10, 6, 10, 6, 15]
  const Titles: seq<string> := ["PID", "PPID", "UID", "UName", "GID", "GName", "State", "Command"]
  /** The dictionary keys a row reads, in column order. */
  const Columns: seq<string> := ["pid", "ppid", "uid", "uname", "gid", "gname", "state", "command"]

  /** The width a cell actually takes: its field width, or its own length
      when it is longer (nothing is truncated). */
  function Extent(cell: string, width: nat): nat {
    if |cell| < width then width else |cell|
  }

  /** Cells, each formatted with `:<width`, side by side. */
  function FormatCells(cells: seq<string>, widths: seq<nat>): string
    requires |cells| == |widths|
  {
    if cells == [] then "" else FormatLeft(cells[0], widths[0]) + FormatCells(cells[1..], widths[1..])
  }

  /** Where cell `i` starts: the extents of the cells before it. */
  function Offset(cells: seq<string>, widths: seq<nat>, i: nat): nat
    requires |cells| == |widths| && i <= |cells|
  {
    if i == 0 then 0 else Extent(cells[0], widths[0]) + Offset(cells[1..], widths[1..], i - 1)
  }

  /** Where column `i` starts when every cell fits its field. */
  function ColumnStart(widths: seq<nat>, i: nat): nat
    requires i <= |widths|
  {
    if i == 0 then 0 else widths[0] + ColumnStart(widths[1..], i - 1)
  }

  /** A formatted row is as long as the extents of its cells. */
  lemma {:induction false} FormatCellsLength(cells: seq<string>, widths: seq<nat>)
    requires |cells| == |widths|
    ensures |FormatCells(cells, widths)| == Offset(cells, widths, |cells|)
  {
    if cells != [] {
      FormatCellsLength(cells[1..], widths[1..]);
    }
  }

  /** Layout of a row: cell `i` appears whole, in column order, at its offset,
      followed by spaces up to the start of the next cell. */
  lemma {:induction false} FormatCellsLayout(cells: seq<string>, widths: seq<nat>, i: nat)
    requires |cells| == |widths| && i < |cells|
    ensures var row, at := FormatCells(cells, widths), Offset(cells, widths, i);
      && Offset(cells, widths, i + 1) == at + Extent(cells[i], widths[i]) <= |row|
      && row[at..at + |cells[i]|] == cells[i]
      && forall j :: at + |cells[i]| <= j < Offset(cells, widths, i + 1) ==> row[j] == ' '
  {
    var head := FormatLeft(cells[0], widths[0]);
    var tail := FormatCells(cells[1..], widths[1..]);
    assert FormatCells(cells, widths) == head + tail;
    var n := |head|;
    if i == 0 {
      assert Offset(cells, widths, 1) == n by {
        assert Offset(cells[1..], widths[1..], 0) == 0;
      }
      FirstCellLayout(cells[0], widths[0], tail);
    } else {
      FormatCellsLayout(cells[1..], widths[1..], i - 1);
      var at := Offset(cells[1..], widths[1..], i - 1);
      var next := Offset(cells[1..], widths[1..], i);
      assert cells[1..][i - 1] == cells[i] && widths[1..][i - 1] == widths[i];
      assert Offset(cells, widths, i) == n + at;
      assert Offset(cells, widths, i + 1) == n + next;
      ShiftedLayout(head, tail, at, cells[i], next);
    }
  }

  /** The first cell of a row, padded to its field. */
  lemma FirstCellLayout(cell: string, width: nat, tail: string)
    ensures var head := FormatLeft(cell, width);
      && (head + tail)[..|cell|] == cell
      && forall j :: |cell| <= j < |head| ==> (head + tail)[j] == ' '
  {
    var head := FormatLeft(cell, width);
    assert (head + tail)[..|cell|] == head[..|cell|];
  }

  /** A cell laid out in the rest of a row stays laid out, shifted, once the
      first cell is put in front. */
  lemma ShiftedLayout(head: string, tail: string, at: nat, cell: string, next: nat)
    requires at + |cell| <= next <= |tail|
    requires tail[at..at + |cell|] == cell
    requires forall j :: at + |cell| <= j < next ==> tail[j] == ' '
    ensures var n := |head|;
      && (head + tail)[n + at..n + at + |cell|] == cell
      && forall j :: n + at + |cell| <= j < n + next ==> (head + tail)[j] == ' '
  {
    var n := |head|;
    assert (head + tail)[n + at..n + at + |cell|] == tail[at..at + |cell|];
  }

  /** When every cell fits its field, cell `i` starts at column `i`: the
      columns line up with the header. */
  lemma {:induction false} AlignedWhenFit(cells: seq<string>, widths: seq<nat>, i: nat)
    requires |cells| == |widths| && i <= |cells|
    requires forall j :: 0 <= j < |cells| ==> |cells[j]| <= widths[j]
    ensures Offset(cells, widths, i) == ColumnStart(widths, i)
  {
    if i > 0 {
      AlignedWhenFit(cells[1..], widths[1..], i - 1);
    }
  }

  function Header(): string {
    FormatCells(Titles, Widths)
  }

  /** `"-" * 65` (myps.py:44). */
  function Separator(): (r: string)
    ensures |r| == 65 && forall i :: 0 <= i < |r| ==> r[i] == '-'
  {
    seq(65, _ => '-')
  }

  /** The header is exactly as wide as the separator, each title starting at
      its column. */
  lemma HeaderWidth()
    ensures |Header()| == |Separator()| == ColumnStart(Widths, |Widths|) == 65
  {
    FormatCellsLength(Titles, Widths);
    AlignedWhenFit(Titles, Widths, |Titles|);
  }

  /** `proc[key]` for every column key succeeds. */
  predicate Complete(r: Info) {
    forall i :: 0 <= i < |Columns| ==> Columns[i] in r
  }

  /** `Complete` spelled out key by key. */
  lemma CompleteByKeys(r: Info)
    ensures Complete(r) <==> "pid" in r && "ppid" in r && "uid" in r && "uname" in r
                             && "gid" in r && "gname" in r && "state" in r && "command" in r
  {
    assert Columns[0] == "pid" && Columns[1] == "ppid" && Columns[2] == "uid" && Columns[3] == "uname";
    assert Columns[4] == "gid" && Columns[5] == "gname" && Columns[6] == "state" && Columns[7] == "command";
  }

  /** The cells of a record's row, in column order. */
  function Cells(r: Info): (cells: seq<string>)
    requires Complete(r)
    ensures |cells| == |Widths|
    ensures forall i :: 0 <= i < |cells| ==> cells[i] == r[Columns[i]]
  {
    seq(|Columns|, i requires 0 <= i < |Columns| => r[Columns[i]])
  }

  /** The f-string of myps.py:46 for one record. */
  function RowOf(r: Info): string
    requires Complete(r)
  {
    FormatCells(Cells(r), Widths)
  }

  /** How many records, from the front, have all column keys. */
  function LeadingComplete(rs: seq<Info>): (k: nat)
    ensures k <= |rs|
    ensures forall i :: 0 <= i < k ==> Complete(rs[i])
    ensures k < |rs| ==> !Complete(rs[k])
  {
    if rs == [] || !Complete(rs[0]) then 0 else 1 + LeadingComplete(rs[1..])
  }

  /** The rows printed for records that all have their column keys. */
  function Rows(rs: seq<Info>): (lines: seq<string>)
    requires forall i :: 0 <= i < |rs| ==> Complete(rs[i])
    ensures |lines| == |rs|
    ensures forall i :: 0 <= i < |rs| ==> lines[i] == RowOf(rs[i])
  {
    if rs == [] then [] else Rows(rs[..|rs| - 1]) + [RowOf(rs[|rs| - 1])]
  }

  /** What `display_processes` leaves on standard output: the printed lines,
      and whether it stopped with a KeyError. */
  datatype Output = Output(lines: seq<string>, keyError: bool)

  function Render(rs: seq<Info>): Output {
    var k := LeadingComplete(rs);
    Output([Header(), Separator()] + Rows(rs[..k]), k < |rs|)
  }

  /** The table: header, separator, then one row per record in order, up to
      the first record lacking a column key, where a KeyError ends the
      output. With every record complete, that is `2 + |rs|` lines. */
  lemma RenderShape(rs: seq<Info>)
    ensures var out, k := Render(rs), LeadingComplete(rs);
      && |out.lines| == 2 + k
      && out.lines[0] == Header() && out.lines[1] == Separator()
      && (forall i :: 0 <= i < k ==> out.lines[2 + i] == RowOf(rs[i]))
      && (out.keyError <==> exists i :: 0 <= i < |rs| && !Complete(rs[i]))
    ensures (forall i :: 0 <= i < |rs| ==> Complete(rs[i])) ==> |Render(rs).lines| == 2 + |rs|
  {
    var k := LeadingComplete(rs);
    assert forall i :: 0 <= i < k ==> rs[..k][i] == rs[i];
  }

  /** One more complete record adds its row to the rows printed so far. */
  lemma RowsStep(rs: seq<Info>, i: nat)
    requires i < |rs| && Complete(rs[i])
    requires forall j :: 0 <= j < i ==> Complete(rs[j])
    ensures forall j :: 0 <= j < i + 1 ==> Complete(rs[j])
    ensures Rows(rs[..i + 1]) == Rows(rs[..i]) + [RowOf(rs[i])]
  {
    assert rs[..i + 1][..i] == rs[..i];
  }

  /** Printing one more line after a header. */
  lemma AppendAfter(head: seq<string>, rows: seq<string>, row: string)
    ensures (head + rows) + [row] == head + (rows + [row])
  {
  }

  /** `display_processes` itself: print the header and separator, then each
      record's row; a missing key ends the loop with a KeyError. */
  method DisplayProcesses(processes: seq<Info>) returns (out: Output)
    ensures out == Render(processes)
  {
    var header, separator := Header(), Separator();
    var lines := [header, separator];
    for i := 0 to |processes|
      invariant forall j :: 0 <= j < i ==> Complete(processes[j])
      invariant lines == [header, separator] + Rows(processes[..i])
    {
      var proc := processes[i];
      if !Complete(proc) {
        assert LeadingComplete(processes) == i;
        return Output(lines, true);
      }
      RowsStep(processes, i);
      AppendAfter([header, separator], Rows(processes[..i]), RowOf(proc));
      lines := lines + [RowOf(proc)];
    }
    assert LeadingComplete(processes) == |processes|;
    assert processes[..|processes|] == processes;
    return Output(lines, false);
  }
}
