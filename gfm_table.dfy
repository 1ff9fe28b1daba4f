/** GitHub Flavored Markdown tables in mdast (`mdast-util-gfm-table`): the
    `inTable` flag kept while a table is parsed, the unescaping of `\|` in
    inline code inside tables, the escaping of `|` when inline code is
    written into a table cell (the rule of section 4.10 "Tables
    (extension)" of the GitHub Flavored Markdown Spec), the alignment
    mapping, the serializer's option defaults and the table-to-matrix
    conversion. `markdownTable`, the default inline-code handler and
    `containerPhrasing` are foreign: their results are parameters. */
module GfmTable {
  import opened Wrappers
  import opened Strings

  // ---------------------------------------------------------------------
  // Pipes in inline code

  /** `value.replace(/\\([\\|])/g, replace)`: left to right, a backslash
      followed by `|` becomes `|`; a backslash followed by a backslash is
      kept as it is and both are consumed. */
  function Unescape(s: string): (r: string)
    decreases |s|
    ensures |r| <= |s|
    ensures '\\' !in s ==> r == s
  {
    if |s| >= 2 && s[0] == '\\' && (s[1] == '\\' || s[1] == '|') then
      (if s[1] == '|' then "|" else "\\\\") + Unescape(s[2..])
    else if s == [] then []
    else
      assert s[0] in s && s[1..] <= s[1..];
      assert '\\' !in s ==> '\\' !in s[1..];
      [s[0]] + Unescape(s[1..])
  }

  /** `value.replace(/\|/g, '\\$&')`: every `|` gets a backslash in front. */
  function Escape(s: string): (r: string)
    ensures |r| >= |s|
    ensures '|' !in s ==> r == s
  {
    if s == [] then []
    else
      assert '|' !in s ==> '|' !in s[1..] && s[0] != '|';
      (if s[0] == '|' then "\\|" else [s[0]]) + Escape(s[1..])
  }

  /** After escaping, no `|` is left bare: each follows a backslash, so none
      can end a table cell. */
  lemma {:induction false} EscapedPipesArePreceded(s: string)
    ensures forall i :: 0 <= i < |Escape(s)| && Escape(s)[i] == '|' ==> i > 0 && Escape(s)[i - 1] == '\\'
  {
    if s != [] {
      var h := if s[0] == '|' then "\\|" else [s[0]];
      var tail := Escape(s[1..]);
      var e := Escape(s);
      EscapedPipesArePreceded(s[1..]);
      assert e == h + tail;
      forall i | 0 <= i < |e| && e[i] == '|'
        ensures i > 0 && e[i - 1] == '\\'
      {
        if i >= |h| {
          assert e[i] == tail[i - |h|];
          if i > |h| {
            assert e[i - 1] == tail[i - |h| - 1];
          }
        } else {
          assert e[i] == h[i];
        }
      }
    }
  }

  /** Escaping for a cell and unescaping when the table is read back is the
      identity on inline code without backslashes. */
  lemma {:induction false} UnescapeEscape(s: string)
    requires '\\' !in s
    ensures Unescape(Escape(s)) == s
  {
    if s != [] {
      var e := Escape(s);
      assert '\\' !in s[1..];
      UnescapeEscape(s[1..]);
      if s[0] == '|' {
        assert e == "\\|" + Escape(s[1..]);
        assert e[2..] == Escape(s[1..]);
      } else {
        assert s[0] in s;
        assert e == [s[0]] + Escape(s[1..]);
        assert e[1..] == Escape(s[1..]);
      }
    }
  }

  /** The identity needs the absence of backslashes: a backslash already
      before a pipe pairs with the added one, and the pipe stays escaped. */
  lemma BackslashBeforePipeStaysEscaped()
    ensures Escape("\\|") == "\\\\|"
    ensures Unescape("\\\\|") == "\\\\|"
    ensures Unescape(Escape("\\|")) != "\\|"
  {
    assert Escape("|") == "\\|";
    assert Escape("\\|") == "\\" + Escape("|");
    assert Unescape("|") == "|";
    assert Unescape("\\\\|") == "\\\\" + Unescape("|");
  }

  // ---------------------------------------------------------------------
  // Reading a table: the inTable flag

  /** The part of `this.data` the table extension uses. */
  datatype CompileData = CompileData(inTable: Option<bool>)

  /** `this.data && this.data.inTable`. */
  predicate InTable(data: Option<CompileData>)
  {
    data.Some? && data.value.inTable == Some(true)
  }

  /** `this.data` after `enterTable`. */
  function EnteredTable(data: Option<CompileData>): Option<CompileData>
  {
    Some(data.GetOr(CompileData(None)).(inTable := Some(true)))
  }

  /** `this.data` after `exitTable`. */
  function ExitedTable(data: Option<CompileData>): Option<CompileData>
  {
    Some(data.GetOr(CompileData(None)).(inTable := None))
  }

  /** The value `exitCodeText` stores on the inline-code node. */
  function CodeTextValue(data: Option<CompileData>, resumed: string): string
  {
    if InTable(data) then Unescape(resumed) else resumed
  }

  /** Inline code read between `enterTable` and `exitTable` is unescaped;
      after `exitTable`, or before any table, it is kept verbatim. */
  lemma TableScope(data: Option<CompileData>, resumed: string)
    ensures CodeTextValue(EnteredTable(data), resumed) == Unescape(resumed)
    ensures CodeTextValue(ExitedTable(data), resumed) == resumed
    ensures CodeTextValue(None, resumed) == resumed
  {
  }

  /** `align.map(d => d === 'none' ? null : d)`. */
  function MapAlign(align: seq<string>): (r: seq<Option<string>>)
    ensures |r| == |align|
  {
    seq(|align|, k requires 0 <= k < |align| => if align[k] == "none" then None else Some(align[k]))
  }

  /** The mapping loses nothing: reading `null` back as `'none'` restores every
      entry, and no `'none'` survives. */
  lemma MapAlignInverse(align: seq<string>)
    ensures forall k :: 0 <= k < |align| ==> MapAlign(align)[k].GetOr("none") == align[k]
    ensures Some("none") !in MapAlign(align)
  {
  }

  /** The node `enterTable` opens. */
  datatype TableNode = TableNode(align: seq<Option<string>>)

  class CompileContext {
    var data: Option<CompileData>

    constructor ()
      ensures data == None
    {
      data := None;
    }

    method EnterTable(align: seq<string>) returns (table: TableNode)
      modifies this
      ensures data == EnteredTable(old(data))
      ensures table == TableNode(MapAlign(align))
    {
      if data.None? {
        data := Some(CompileData(None));
      }
      table := TableNode(MapAlign(align));
      data := Some(data.value.(inTable := Some(true)));
    }

    method ExitTable()
      modifies this
      ensures data == ExitedTable(old(data))
    {
      if data.None? {
        data := Some(CompileData(None));
      }
      data := Some(data.value.(inTable := None));
    }

    /** `exitCodeText`, given what `this.resume()` returned. */
    method ExitCodeText(resumed: string) returns (value: string)
      ensures value == CodeTextValue(data, resumed)
    {
      value := resumed;
      if data.Some? && data.value.inTable == Some(true) {
        value := Unescape(value);
      }
    }
  }

  // ---------------------------------------------------------------------
  // Writing a table

  /** The serializer's options; `None` is an absent (or null) field. */
  datatype Options = Options(tableCellPadding: Option<bool>, tablePipeAlign: Option<bool>,
                             stringLength: Option<string -> nat>)

  datatype Settings = Settings(tableCellPadding: bool, tablePipeAlign: bool, stringLength: string -> nat)

  /** The argument of `gfmTableToMarkdown`. */
  datatype OptionsArg = Undefined | Null | Given(options: Options)

  /** `settings` from an options object: `??` keeps an explicit `false`,
      `||` takes any given function, and the default measure is `str.length`,
      the length in UTF-16 code units. */
  function SettingsFor(o: Options): (st: Settings)
    ensures st.tableCellPadding <==> o.tableCellPadding != Some(false)
    ensures st.tablePipeAlign <==> o.tablePipeAlign != Some(false)
    ensures o.stringLength.None? ==> forall s :: st.stringLength(s) == Utf16Length(s)
  {
    Settings(o.tableCellPadding.GetOr(true), o.tablePipeAlign.GetOr(true),
             o.stringLength.GetOr(Utf16Length))
  }

  /** The empty options object. */
  const NoOptions: Options := Options(None, None, None)

  /** `gfmTableToMarkdown(options = {})` as written: `undefined` takes the
      default parameter, `null` does not, and reading a field of `null`
      throws (`None`). */
  function SettingsAsWritten(arg: OptionsArg): Option<Settings>
  {
    match arg
    case Undefined => Some(SettingsFor(NoOptions))
    case Null => None
    case Given(o) => Some(SettingsFor(o))
  }

  /** A `null` argument, which the declared parameter type admits, throws. */
  lemma NullOptionsThrow()
    ensures SettingsAsWritten(Null).None?
    ensures SettingsAsWritten(Undefined).Some?
  {
  }

  /** The settings with `null` treated like `undefined`, as the parameter's
      type `Options | null | undefined` intends. */
  function Settle(arg: OptionsArg): (st: Settings)
    ensures arg.Given? ==> st == SettingsFor(arg.options)
  {
    if arg.Given? then SettingsFor(arg.options) else SettingsFor(NoOptions)
  }

  /** With no options, padding and delimiter alignment are on and lengths are
      counted in UTF-16 code units; for every other argument the corrected settings
      agree with the code as written. */
  lemma DefaultSettings(arg: OptionsArg)
    ensures !arg.Given? ==>
      Settle(arg).tableCellPadding && Settle(arg).tablePipeAlign
      && forall s :: Settle(arg).stringLength(s) == Utf16Length(s)
    ensures SettingsAsWritten(arg).Some? ==> SettingsAsWritten(arg).value == Settle(arg)
  {
  }

  /** `around`: a space with padding, a pipe without. */
  function Around(st: Settings): string
  {
    if st.tableCellPadding then " " else "|"
  }

  lemma AroundFollowsPadding(o: Options)
    ensures Around(SettingsFor(o)) == (if o.tableCellPadding == Some(false) then "|" else " ")
  {
  }

  /** Phrasing content of a cell. */
  datatype Phrasing = TextNode(value: string) | InlineCodeNode(value: string)

  datatype CellNode = CellNode(children: seq<Phrasing>)

  datatype RowNode = RowNode(cells: seq<CellNode>)

  datatype TableTree = TableTree(align: seq<Option<string>>, rows: seq<RowNode>)

  /** `containerPhrasing` for a cell: given the construct stack and `around`. */
  type Render = (seq<string>, string, CellNode) -> string

  /** `handleTableCell`: the cell rendered with `tableCell` and `phrasing`
      entered on the construct stack, `around` on both sides. */
  function HandleTableCell(cell: CellNode, stack: seq<string>, around: string, render: Render): string
  {
    render(stack + ["tableCell", "phrasing"], around, cell)
  }

  /** The strings `handleTableRowAsData` produces, one per cell. */
  function RowCells(row: RowNode, stack: seq<string>, around: string, render: Render): (cells: seq<string>)
    ensures |cells| == |row.cells|
  {
    seq(|row.cells|, k requires 0 <= k < |row.cells| =>
      HandleTableCell(row.cells[k], stack + ["tableRow"], around, render))
  }

  /** `handleTableRowAsData`. */
  method RowAsData(row: RowNode, stack: seq<string>, around: string, render: Render) returns (result: seq<string>)
    ensures result == RowCells(row, stack, around, render)
  {
    var children := row.cells;
    result := [];
    var index := 0;
    while index < |children|
      invariant 0 <= index <= |children|
      invariant result == RowCells(row, stack, around, render)[..index]
    {
      result := result + [HandleTableCell(children[index], stack + ["tableRow"], around, render)];
      index := index + 1;
    }
  }

  /** `handleTableAsData`: one row of cell strings per table row, in order,
      with `table` entered. */
  method TableAsData(table: TableTree, stack: seq<string>, around: string, render: Render)
    returns (matrix: seq<seq<string>>)
    ensures |matrix| == |table.rows|
    ensures forall r :: 0 <= r < |matrix| ==> matrix[r] == RowCells(table.rows[r], stack + ["table"], around, render)
  {
    var children := table.rows;
    matrix := [];
    var index := 0;
    while index < |children|
      invariant 0 <= index <= |children|
      invariant |matrix| == index
      invariant forall r :: 0 <= r < index ==> matrix[r] == RowCells(children[r], stack + ["table"], around, render)
    {
      var row := RowAsData(children[index], stack + ["table"], around, render);
      matrix := matrix + [row];
      index := index + 1;
    }
  }

  /** Every cell string of the matrix is rendered with `table`, `tableRow`,
      `tableCell` and `phrasing` entered, in that order. */
  lemma CellsRenderInsideTableCell(table: TableTree, stack: seq<string>, around: string, render: Render, r: nat, c: nat)
    requires r < |table.rows| && c < |table.rows[r].cells|
    ensures RowCells(table.rows[r], stack + ["table"], around, render)[c]
         == render(stack + ["table", "tableRow", "tableCell", "phrasing"], around, table.rows[r].cells[c])
  {
    assert stack + ["table"] + ["tableRow"] + ["tableCell", "phrasing"]
        == stack + ["table", "tableRow", "tableCell", "phrasing"];
  }

  /** `inlineCodeWithTable`, given what the default handler produced. */
  function InlineCodeWithTable(value: string, stack: seq<string>): string
  {
    if "tableCell" in stack then Escape(value) else value
  }

  /** Inline code written while a cell is being rendered has its pipes
      escaped; outside any cell it is left as the default handler wrote it. */
  lemma InlineCodeInCell(value: string, stack: seq<string>)
    ensures InlineCodeWithTable(value, stack + ["tableCell", "phrasing"]) == Escape(value)
    ensures "tableCell" !in stack ==> InlineCodeWithTable(value, stack) == value
  {
    var inner := stack + ["tableCell", "phrasing"];
    assert inner[|stack|] == "tableCell";
  }

  /** `handleTableRow`: the serialized one-row table up to its first line
      break; with no line break, `slice(0, -1)` drops the last character. */
  function HandleTableRow(serialized: string): (line: string)
    ensures line <= serialized
    ensures '\n' !in line
    ensures '\n' in serialized ==> serialized[|line|] == '\n'
    ensures '\n' !in serialized ==> |line| == if serialized == [] then 0 else |serialized| - 1
  {
    var i := IndexOf(serialized, "\n");
    IndexOfChar(serialized, '\n');
    if i >= 0 then serialized[..i]
    else if serialized == [] then ""
    else
      var p := serialized[..|serialized| - 1];
      assert '\n' !in p by {
        forall j | 0 <= j < |p| ensures p[j] != '\n' {
          assert p[j] == serialized[j];
          assert serialized[j] in serialized;
        }
      }
      p
  }
}
