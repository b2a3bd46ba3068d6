/**
 * The text side of Github/ezHash.py: ANSI colouring of log text, the file
 * name shown in the table heading, and the markdown table of hashes. File
 * reading, hashing and the clock are not part of this model.
 */
module EzHash {
  import opened Wrappers
  import opened Strings

  /** `COLOR` and `BOLD`. */
  const UseColor: bool := true
  const Bold: bool := true

  /** `ColorCodes`. */
  const ColorCodes: map<string, string> := map[
    "black" := "30", "red" := "31", "yellow" := "33", "green" := "32", "blue" := "34",
    "cyan" := "36", "magenta" := "35", "white" := "37", "gray" := "90", "reset" := "0"]

  const Esc: char := '\U{001B}'

  /** The escape sequence that ends a coloured span. */
  function Reset(): string {
    [Esc] + "[0m"
  }

  /**
   * `colored` with `COLOR` and `BOLD` as parameters: the text unchanged
   * without colour; otherwise wrapped in the colour's escape sequence and a
   * reset. An unknown colour name is the `KeyError`, `None` here.
   */
  function Colored(text: string, color: string, useColor: bool, bold: bool): (r: Option<string>)
    ensures !useColor ==> r == Some(text)
    ensures useColor ==> (r.Some? <==> Lower(color) in ColorCodes)
    ensures useColor && r.Some? ==> |r.value| > |text| + |Reset()|
    ensures useColor && r.Some? ==> r.value[|r.value| - |Reset()| - |text|..] == text + Reset()
    ensures useColor && r.Some? ==> r.value[..2] == [Esc, '['] && r.value[2..4] == (if bold then "1;" else "0;")
  {
    if !useColor then Some(text)
    else if Lower(color) !in ColorCodes then None
    else
      var weight := if bold then "1;" else "0;";
      Some([Esc] + "[" + weight + ColorCodes[Lower(color)] + "m" + text + Reset())
  }

  /** Colour names are looked up without regard to ASCII case. */
  lemma ColoredIgnoresCase(text: string, color: string, bold: bool)
    ensures Colored(text, color, true, bold) == Colored(text, Lower(color), true, bold)
  {
    LowerIdempotent(color);
  }

  /** Every colour the script itself names is known. */
  lemma ScriptColorsKnown(text: string)
    ensures forall c :: c in ["yellow", "magenta", "cyan", "red", "green", "blue"] ==> Colored(text, c, UseColor, Bold).Some?
  {
    forall c | c in ["yellow", "magenta", "cyan", "red", "green", "blue"]
      ensures Lower(c) == c
    {
      assert forall i :: 0 <= i < |c| ==> 'a' <= c[i] <= 'z';
    }
  }

  /** The last `/`-separated part of `path`: the text after its last '/'. */
  function Basename(path: string): (r: string)
    ensures '/' !in r && |r| <= |path| && r == path[|path| - |r|..]
    ensures |r| < |path| ==> path[|path| - |r| - 1] == '/'
  {
    if path == [] then []
    else if path[|path| - 1] == '/' then []
    else Basename(path[..|path| - 1]) + [path[|path| - 1]]
  }

  /** `fileNameFromPath`: the basename is computed and then discarded; the path comes back as given. */
  function FileNameFromPath(path: string): (r: string)
    ensures r == path
  {
    var working := Basename(path);
    path
  }

  /** A path with a directory is not shortened to its file name. */
  lemma DirectoryKept()
    ensures FileNameFromPath("dir/file.bin") != Basename("dir/file.bin")
  {
    assert |Basename("dir/file.bin")| < |"dir/file.bin"| by {
      assert "dir/file.bin"[3] == '/';
    }
  }

  function Heading(filePath: string): string {
    "### Hashes for `" + FileNameFromPath(filePath) + "`\n"
  }

  function HeaderRow(n0: string, n1: string): string {
    "|" + n0 + "|" + n1 + "|\n"
  }

  function SeparatorRow(n0: string, n1: string): (r: string)
    ensures |r| == |HeaderRow(n0, n1)|
  {
    "|" + Repeat('-', |n0|) + "|" + Repeat('-', |n1|) + "|\n"
  }

  function Row(entry: (string, string)): string {
    "|" + entry.0 + "|" + entry.1 + "|\n"
  }

  /** One row per entry, in the order of the dictionary. */
  function Rows(data: seq<(string, string)>): string {
    if data == [] then [] else Rows(data[..|data| - 1]) + Row(data[|data| - 1])
  }

  /** Everything `markdownTabelFromDict` appends, before the last character is cut. */
  function Table(data: seq<(string, string)>, n0: string, n1: string, filePath: string): (r: string)
    ensures r != [] && r[|r| - 1] == '\n'
  {
    Heading(filePath) + HeaderRow(n0, n1) + SeparatorRow(n0, n1) + Rows(data)
  }

  /**
   * `markdownTabelFromDict`, with the dictionary as its list of entries in
   * iteration order: heading, header, separator, one row per entry, and
   * the final newline cut off. Fewer than two names is the `IndexError`.
   */
  method MarkdownTable(data: seq<(string, string)>, names: seq<string>, filePath: string) returns (r: Option<string>)
    ensures r.None? <==> |names| < 2
    ensures r.Some? ==> r.value + "\n" == Table(data, names[0], names[1], filePath)
  {
    if |names| < 2 {
      return None;
    }
    var result := "### Hashes for `" + FileNameFromPath(filePath) + "`\n";
    result := result + "|" + names[0] + "|" + names[1] + "|\n";
    result := result + "|" + Repeat('-', |names[0]|) + "|" + Repeat('-', |names[1]|) + "|\n";
    ghost var front := Heading(filePath) + HeaderRow(names[0], names[1]) + SeparatorRow(names[0], names[1]);
    assert result == front;
    for i := 0 to |data|
      invariant result == front + Rows(data[..i])
    {
      assert data[..i + 1][..i] == data[..i];
      assert Rows(data[..i + 1]) == Rows(data[..i]) + Row(data[i]);
      var row := "|" + data[i].0 + "|" + data[i].1 + "|\n";
      assert row == Row(data[i]);
      result := result + row;
    }
    assert data[..|data|] == data;
    assert result == Table(data, names[0], names[1], filePath);
    r := Some(result[..|result| - 1]);
  }

  /** How many times `c` occurs in `s`. */
  function Count(s: string, c: char): nat {
    if s == [] then 0 else Count(s[..|s| - 1], c) + (if s[|s| - 1] == c then 1 else 0)
  }

  lemma {:induction false} CountAppend(a: string, b: string, c: char)
    ensures Count(a + b, c) == Count(a, c) + Count(b, c)
    decreases |b|
  {
    if b == [] {
      assert a + b == a;
    } else {
      var b' := b[..|b| - 1];
      CountAppend(a, b', c);
      assert (a + b)[..|a + b| - 1] == a + b';
    }
  }

  lemma {:induction false} CountAbsent(s: string, c: char)
    requires c !in s
    ensures Count(s, c) == 0
  {
    if s != [] {
      CountAbsent(s[..|s| - 1], c);
    }
  }

  /** A row holds one newline, its last character, when its cells hold none. */
  lemma RowNewlines(entry: (string, string))
    requires '\n' !in entry.0 && '\n' !in entry.1
    ensures Count(Row(entry), '\n') == 1
  {
    CountAbsent(entry.0, '\n');
    CountAbsent(entry.1, '\n');
    CountAppend("|" + entry.0 + "|" + entry.1, "|\n", '\n');
    CountAppend("|" + entry.0 + "|", entry.1, '\n');
    CountAppend("|" + entry.0, "|", '\n');
    CountAppend("|", entry.0, '\n');
    assert "|" + entry.0 + "|" + entry.1 + "|\n" == ("|" + entry.0 + "|" + entry.1) + "|\n";
  }

  lemma {:induction false} RowsNewlines(data: seq<(string, string)>)
    requires forall i :: 0 <= i < |data| ==> '\n' !in data[i].0 && '\n' !in data[i].1
    ensures Count(Rows(data), '\n') == |data|
  {
    if data != [] {
      RowsNewlines(data[..|data| - 1]);
      RowNewlines(data[|data| - 1]);
      CountAppend(Rows(data[..|data| - 1]), Row(data[|data| - 1]), '\n');
    }
  }

  /**
   * With no newline inside the path, the names or the entries, the table
   * has one line each for the heading, the header and the separator and
   * one per entry: `2 + |data|` line breaks, the last line unterminated.
   */
  lemma TableLines(data: seq<(string, string)>, n0: string, n1: string, filePath: string)
    requires '\n' !in filePath && '\n' !in n0 && '\n' !in n1
    requires forall i :: 0 <= i < |data| ==> '\n' !in data[i].0 && '\n' !in data[i].1
    ensures var t := Table(data, n0, n1, filePath); Count(t[..|t| - 1], '\n') == 2 + |data|
  {
    var t := Table(data, n0, n1, filePath);
    RowNewlines((filePath, ""));
    assert Count("### Hashes for `" + filePath + "`\n", '\n') == 1 by {
      CountAbsent("### Hashes for `" + filePath + "`", '\n');
      CountAppend("### Hashes for `" + filePath + "`", "\n", '\n');
      assert "### Hashes for `" + filePath + "`\n" == ("### Hashes for `" + filePath + "`") + "\n";
    }
    RowNewlines((n0, n1));
    assert HeaderRow(n0, n1) == Row((n0, n1));
    RowNewlines((Repeat('-', |n0|), Repeat('-', |n1|)));
    assert SeparatorRow(n0, n1) == Row((Repeat('-', |n0|), Repeat('-', |n1|)));
    RowsNewlines(data);
    CountAppend(Heading(filePath), HeaderRow(n0, n1), '\n');
    CountAppend(Heading(filePath) + HeaderRow(n0, n1), SeparatorRow(n0, n1), '\n');
    CountAppend(Heading(filePath) + HeaderRow(n0, n1) + SeparatorRow(n0, n1), Rows(data), '\n');
    assert t == t[..|t| - 1] + "\n";
    CountAppend(t[..|t| - 1], "\n", '\n');
  }

  /** The table opens with its heading line, whatever the entries. */
  lemma TableStartsWithHeading(data: seq<(string, string)>, n0: string, n1: string, filePath: string)
    ensures var t := Table(data, n0, n1, filePath);
      var h := "### Hashes for `" + filePath + "`";
      |h| < |t| && t[..|h|] == h
  {
  }
}
