/** Parsing of the text grid format read by `GameMap.load` in src/Game.py:
    newline-separated rows, one decimal digit per cell. */
module TextGrid {
  import opened Wrappers

  /** What `load` raises before it changes anything: `int()` rejects a character
      (ValueError), or there is no non-empty line to take the width from
      (IndexError on `arr2d[0]`). */
  datatype LoadError = NotADigit | NoRows

  /** `s.split("\n")`: the pieces between newlines, empty ones included. */
  function Split(s: string): (lines: seq<string>)
    ensures |lines| >= 1
    decreases |s|
  {
    if s == [] then [[]]
    else
      var rest := Split(s[1..]);
      if s[0] == '\n' then [[]] + rest else [[s[0]] + rest[0]] + rest[1..]
  }

  /** `"\n".join(lines)` */
  function Join(lines: seq<string>): string
    decreases |lines|
  {
    if |lines| == 0 then []
    else if |lines| == 1 then lines[0]
    else lines[0] + ['\n'] + Join(lines[1..])
  }

  /** Splitting at newlines loses nothing: joining the pieces gives the text back,
      and no piece holds a newline. */
  lemma {:induction false} SplitJoin(s: string)
    ensures Join(Split(s)) == s
    ensures forall line :: line in Split(s) ==> '\n' !in line
    decreases |s|
  {
    if s != [] {
      SplitJoin(s[1..]);
      var rest := Split(s[1..]);
      if s[0] == '\n' {
        assert ([[]] + rest)[1..] == rest;
        assert s == [s[0]] + s[1..];
      } else {
        var lines := [[s[0]] + rest[0]] + rest[1..];
        assert lines[1..] == rest[1..];
        if |rest| > 1 {
          assert Join(rest) == rest[0] + ['\n'] + Join(rest[1..]);
          assert Join(lines) == [s[0]] + Join(rest);
        }
        assert s == [s[0]] + s[1..];
        forall line | line in lines
          ensures '\n' !in line
        {
          if line != lines[0] {
            assert line in rest;
          }
        }
      }
    }
  }

  /** All characters of the lines, in order. */
  function Flatten(lines: seq<string>): string
    decreases |lines|
  {
    if lines == [] then [] else lines[0] + Flatten(lines[1..])
  }

  /** A character other than a newline occurs in the text exactly when it occurs
      in one of the pieces `Split` cuts it into. */
  lemma {:induction false} SplitChars(s: string, c: char)
    requires c != '\n'
    ensures c in s <==> c in Flatten(Split(s))
    decreases |s|
  {
    if s != [] {
      SplitChars(s[1..], c);
      var rest := Split(s[1..]);
      assert s == [s[0]] + s[1..];
      assert Flatten(rest) == rest[0] + Flatten(rest[1..]);
      if s[0] == '\n' {
        assert ([[]] + rest)[1..] == rest;
      } else {
        var lines := [[s[0]] + rest[0]] + rest[1..];
        assert lines[1..] == rest[1..];
        assert Flatten(lines) == [s[0]] + Flatten(rest);
      }
    }
  }

  /** `[st for st in lines if st]` */
  function NonEmpty(lines: seq<string>): (kept: seq<string>)
    ensures forall line :: line in kept ==> line != [] && line in lines
    decreases |lines|
  {
    if lines == [] then []
    else if lines[0] == [] then NonEmpty(lines[1..])
    else [lines[0]] + NonEmpty(lines[1..])
  }

  /** Dropping empty lines keeps every character; some line is kept exactly when
      there is some character. */
  lemma {:induction false} NonEmptyChars(lines: seq<string>)
    ensures Flatten(NonEmpty(lines)) == Flatten(lines)
    ensures NonEmpty(lines) == [] <==> Flatten(lines) == []
    decreases |lines|
  {
    if lines != [] {
      NonEmptyChars(lines[1..]);
      if lines[0] != [] {
        assert ([lines[0]] + NonEmpty(lines[1..]))[1..] == NonEmpty(lines[1..]);
      }
    }
  }

  predicate IsDigit(c: char) {
    '0' <= c <= '9'
  }

  /** `list(map(int, line))`: the value of each digit, or None when `int()`
      raises on a character. */
  function ParseRow(line: string): (row: Option<seq<int>>)
    ensures row.Some? <==> forall c :: c in line ==> IsDigit(c)
    ensures row.Some? ==> |row.value| == |line|
    ensures row.Some? ==> forall k :: 0 <= k < |line| ==> 0 <= row.value[k] <= 9 && row.value[k] == line[k] as int - '0' as int
    decreases |line|
  {
    if line == [] then Some([])
    else if !IsDigit(line[0]) then None
    else
      var rest :- ParseRow(line[1..]);
      assert line == [line[0]] + line[1..];
      Some([line[0] as int - '0' as int] + rest)
  }

  /** The list comprehension of `load` over the kept lines: fails on the first
      character `int()` rejects. */
  function ParseRows(lines: seq<string>): (rows: Result<seq<seq<int>>, LoadError>)
    ensures rows.Ok? <==> forall c :: c in Flatten(lines) ==> IsDigit(c)
    ensures rows.Err? ==> rows.error == NotADigit
    ensures rows.Ok? ==> |rows.value| == |lines| && forall k :: 0 <= k < |lines| ==> ParseRow(lines[k]) == Some(rows.value[k])
    decreases |lines|
  {
    if lines == [] then Ok([])
    else
      match ParseRow(lines[0])
      case None => Err(NotADigit)
      case Some(row) =>
        var rest :- ParseRows(lines[1..]);
        Ok([row] + rest)
  }

  /** The grid `load` builds from a text: the digit rows of its non-empty lines,
      of which there must be at least one. */
  function ParseGrid(text: string): (g: Result<seq<seq<int>>, LoadError>)
    ensures g.Ok? ==> |g.value| == |NonEmpty(Split(text))| >= 1
    ensures g == Err(NoRows) ==> NonEmpty(Split(text)) == []
  {
    var rows :- ParseRows(NonEmpty(Split(text)));
    if rows == [] then Err(NoRows) else Ok(rows)
  }

  /** A text loads exactly when every character is a digit or a newline and some
      character is not a newline; a non-digit character is reported as such even
      when there are no rows. */
  lemma ParseGridOutcome(text: string)
    ensures ParseGrid(text).Ok? <==>
      (forall c :: c in text && c != '\n' ==> IsDigit(c)) && (exists c :: c in text && c != '\n')
    ensures ParseGrid(text) == Err(NotADigit) <==> exists c :: c in text && c != '\n' && !IsDigit(c)
    ensures ParseGrid(text) == Err(NoRows) <==> forall c :: c in text ==> c == '\n'
  {
    var lines := Split(text);
    NonEmptyChars(lines);
    var chars := Flatten(lines);
    forall c | c != '\n'
      ensures c in text <==> c in chars
    {
      SplitChars(text, c);
    }
    SplitJoin(text);
    NoNewlineInFlatten(lines);
    var kept := NonEmpty(lines);
    assert ParseGrid(text).Ok? <==> ParseRows(kept).Ok? && kept != [];
    if chars != [] {
      assert chars[0] in chars && chars[0] != '\n';
      assert chars[0] in text;
    }
    if exists c :: c in text && c != '\n' {
      var c :| c in text && c != '\n';
      assert c in chars;
    }
  }

  /** Pieces without newlines flatten to a text without newlines. */
  lemma {:induction false} NoNewlineInFlatten(lines: seq<string>)
    requires forall line :: line in lines ==> '\n' !in line
    ensures '\n' !in Flatten(lines)
    decreases |lines|
  {
    if lines != [] {
      assert lines[0] in lines;
      assert forall line :: line in lines[1..] ==> line in lines;
      NoNewlineInFlatten(lines[1..]);
    }
  }

  /** A successful load has one row per non-empty line, each row as long as its
      line and holding the values of its digits. */
  lemma ParseGridRows(text: string)
    requires ParseGrid(text).Ok?
    ensures var rows, lines := ParseGrid(text).value, NonEmpty(Split(text));
      |rows| == |lines| >= 1 &&
      forall y :: 0 <= y < |rows| ==>
        |rows[y]| == |lines[y]| &&
        forall x :: 0 <= x < |rows[y]| ==> rows[y][x] == lines[y][x] as int - '0' as int
  {
    var rows, lines := ParseGrid(text).value, NonEmpty(Split(text));
    forall y | 0 <= y < |rows|
      ensures |rows[y]| == |lines[y]|
      ensures forall x :: 0 <= x < |rows[y]| ==> rows[y][x] == lines[y][x] as int - '0' as int
    {
      assert ParseRow(lines[y]) == Some(rows[y]);
    }
  }

  /** Two equal rows of ones load as a two-by-two grid of ones. */
  lemma SquareExample()
    ensures ParseGrid("11\n11\n") == Ok([[1, 1], [1, 1]])
  {
    SplitExample();
    assert "11\n11\n"[1..] == "1\n11\n" && "1\n11\n"[1..] == "\n11\n" && "\n11\n"[1..] == "11\n";
    assert Split("1\n11\n") == [['1'] + ""] + ["11", ""];
    assert Split("11\n11\n") == [['1'] + "1"] + ["11", ""];
    assert ['1'] + "" == "1" && ['1'] + "1" == "11";
    assert NonEmpty(["11", "11", ""]) == ["11", "11"];
    OnesExample();
    assert ["11", "11"][1..] == ["11"] && ["11"][1..] == [];
    assert ParseRows(["11"]) == Ok([[1, 1]] + []);
    assert [[1, 1]] + [] == [[1, 1]];
    assert ParseRows(["11", "11"]) == Ok([[1, 1]] + [[1, 1]]);
    assert [[1, 1]] + [[1, 1]] == [[1, 1], [1, 1]];
  }

  /** Rows of unequal length are not rejected: "11\n1\n" loads as a ragged grid. */
  lemma RaggedExample()
    ensures ParseGrid("11\n1\n") == Ok([[1, 1], [1]])
  {
    SplitExample();
    assert "11\n1\n"[1..] == "1\n1\n" && "1\n1\n"[1..] == "\n1\n" && "\n1\n"[1..] == "1\n";
    assert Split("1\n1\n") == [['1'] + ""] + ["1", ""];
    assert Split("11\n1\n") == [['1'] + "1"] + ["1", ""];
    assert ['1'] + "" == "1" && ['1'] + "1" == "11";
    assert NonEmpty(["11", "1", ""]) == ["11", "1"];
    OnesExample();
    assert ["11", "1"][1..] == ["1"] && ["1"][1..] == [];
    assert ParseRows(["1"]) == Ok([[1]] + []);
    assert [[1]] + [] == [[1]];
    assert ParseRows(["11", "1"]) == Ok([[1, 1]] + [[1]]);
    assert [[1, 1]] + [[1]] == [[1, 1], [1]];
  }

  lemma SplitExample()
    ensures Split("1\n") == ["1", ""] && Split("11\n") == ["11", ""]
  {
    assert "\n"[1..] == "";
    assert Split("\n") == ["", ""];
    assert "1\n"[1..] == "\n";
    assert Split("1\n") == [['1'] + ""] + [""];
    assert ['1'] + "" == "1";
    assert "11\n"[1..] == "1\n";
    assert Split("11\n") == [['1'] + "1"] + [""];
    assert ['1'] + "1" == "11";
  }

  lemma OnesExample()
    ensures ParseRow("1") == Some([1]) && ParseRow("11") == Some([1, 1])
  {
    assert "1"[1..] == "" && "11"[1..] == "1";
    var one, two := ParseRow("1").value, ParseRow("11").value;
    assert one == [1] by {
      assert |one| == 1 && one[0] == 1;
    }
    assert two == [1, 1] by {
      assert |two| == 2 && two[0] == 1 && two[1] == 1;
    }
  }
}
