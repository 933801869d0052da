/** splitSQL: a script becomes a list of statements, and nothing but comments, blank lines, outer white space
    and empty statements is lost on the way. */
module SqlSplit {

  /** unicode.IsSpace. */
  predicate IsSpace(c: char) {
    var n := c as int;
    9 <= n <= 13 || n in {0x20, 0x85, 0xA0, 0x1680, 0x2028, 0x2029, 0x202F, 0x205F, 0x3000} || 0x2000 <= n <= 0x200A
  }

  function TrimLeft(s: string): string {
    if s != [] && IsSpace(s[0]) then TrimLeft(s[1..]) else s
  }

  function TrimRight(s: string): string {
    if s != [] && IsSpace(s[|s| - 1]) then TrimRight(s[..|s| - 1]) else s
  }

  function TrimSpace(s: string): string {
    TrimRight(TrimLeft(s))
  }

  /** strings.Split(s, "\n"): always at least one line. */
  function Lines(s: string): (ls: seq<string>)
    ensures |ls| >= 1
  {
    if s == [] then [""]
    else
      var rest := Lines(s[1..]);
      if s[0] == '\n' then [""] + rest else [[s[0]] + rest[0]] + rest[1..]
  }

  /** The line up to its first "--". */
  function StripComment(line: string): string {
    if line == [] || (|line| >= 2 && line[0] == '-' && line[1] == '-') then []
    else [line[0]] + StripComment(line[1..])
  }

  function Clean(line: string): string {
    TrimSpace(StripComment(line))
  }

  function CleanAll(lines: seq<string>): seq<string> {
    if lines == [] then []
    else
      var rest := CleanAll(lines[1..]);
      if Clean(lines[0]) == "" then rest else [Clean(lines[0])] + rest
  }

  /** The comment-stripped, trimmed, non-blank lines of a script, in order. */
  function CleanLines(script: string): seq<string> {
    CleanAll(Lines(script))
  }

  function Join(parts: seq<string>): string {
    if parts == [] then ""
    else if |parts| == 1 then parts[0]
    else parts[0] + "\n" + Join(parts[1..])
  }

  predicate EndsStatement(line: string) {
    line != [] && line[|line| - 1] == ';'
  }

  /** The statements that the lines make up when the lines `open` have been read but not ended yet:
      a statement ends with a line that ends with ";", and a lone ";" is no statement. */
  function Statements(open: seq<string>, lines: seq<string>): seq<string>
    decreases |lines|
  {
    if lines == [] then (if open == [] then [] else [Join(open)])
    else if EndsStatement(lines[0]) then
      (if open == [] && lines[0] == ";" then [] else [Join(open + [lines[0]])]) + Statements([], lines[1..])
    else Statements(open + [lines[0]], lines[1..])
  }

  /** The lines without those that are a lone ";" where a statement would start. */
  function Kept(lines: seq<string>, atStart: bool): seq<string> {
    if lines == [] then []
    else if atStart && lines[0] == ";" then Kept(lines[1..], true)
    else [lines[0]] + Kept(lines[1..], EndsStatement(lines[0]))
  }

  // ----- Clean lines -----

  predicate NoComment(s: string) {
    forall i :: 0 <= i < |s| - 1 ==> !(s[i] == '-' && s[i + 1] == '-')
  }

  predicate OneLine(s: string) {
    forall i :: 0 <= i < |s| ==> s[i] != '\n'
  }

  predicate Trimmed(s: string) {
    s != [] && !IsSpace(s[0]) && !IsSpace(s[|s| - 1])
  }

  predicate IsClean(line: string) {
    Trimmed(line) && OneLine(line) && NoComment(line)
  }

  predicate AllClean(lines: seq<string>) {
    forall i :: 0 <= i < |lines| ==> IsClean(lines[i])
  }

  lemma {:induction false} LinesAreLines(s: string)
    ensures forall i :: 0 <= i < |Lines(s)| ==> OneLine(Lines(s)[i])
  {
    if s != [] {
      LinesAreLines(s[1..]);
    }
  }

  lemma {:induction false} StripIsPrefix(line: string)
    ensures StripComment(line) <= line && NoComment(StripComment(line))
  {
    if line == [] || (|line| >= 2 && line[0] == '-' && line[1] == '-') {
    } else {
      StripIsPrefix(line[1..]);
      var rest := StripComment(line[1..]);
      assert rest != [] ==> rest[0] == line[1];
    }
  }

  lemma {:induction false} TrimLeftOk(s: string)
    requires OneLine(s) && NoComment(s)
    ensures var r := TrimLeft(s); OneLine(r) && NoComment(r) && (r != [] ==> !IsSpace(r[0]))
  {
    if s != [] && IsSpace(s[0]) {
      TrimLeftOk(s[1..]);
    }
  }

  lemma {:induction false} TrimRightOk(s: string)
    requires OneLine(s) && NoComment(s) && (s != [] ==> !IsSpace(s[0]))
    ensures var r := TrimRight(s); OneLine(r) && NoComment(r) && (r != [] ==> Trimmed(r))
  {
    if s != [] && IsSpace(s[|s| - 1]) {
      TrimRightOk(s[..|s| - 1]);
    }
  }

  lemma CleanIsClean(line: string)
    requires OneLine(line)
    ensures Clean(line) != "" ==> IsClean(Clean(line))
  {
    StripIsPrefix(line);
    TrimLeftOk(StripComment(line));
    TrimRightOk(TrimLeft(StripComment(line)));
  }

  lemma {:induction false} StripNothing(line: string)
    requires NoComment(line)
    ensures StripComment(line) == line
  {
    if line != [] {
      StripNothing(line[1..]);
    }
  }

  lemma CleanAgain(line: string)
    requires IsClean(line)
    ensures Clean(line) == line
  {
    StripNothing(line);
  }

  lemma {:induction false} CleanAllIsClean(lines: seq<string>)
    requires forall i :: 0 <= i < |lines| ==> OneLine(lines[i])
    ensures AllClean(CleanAll(lines))
  {
    if lines != [] {
      CleanAllIsClean(lines[1..]);
      CleanIsClean(lines[0]);
    }
  }

  lemma {:induction false} CleanAllAgain(lines: seq<string>)
    requires AllClean(lines)
    ensures CleanAll(lines) == lines
  {
    if lines != [] {
      CleanAgain(lines[0]);
      CleanAllAgain(lines[1..]);
    }
  }

  // ----- Joining and splitting -----

  lemma {:induction false} LinesOfLine(s: string)
    requires OneLine(s)
    ensures Lines(s) == [s]
  {
    if s != [] {
      LinesOfLine(s[1..]);
      assert [s[0]] + s[1..] == s;
    }
  }

  lemma {:induction false} LinesConcat(s: string, t: string)
    requires OneLine(s)
    ensures Lines(s + "\n" + t) == [s] + Lines(t)
  {
    if s == [] {
      assert (s + "\n" + t)[1..] == t;
    } else {
      LinesConcat(s[1..], t);
      assert [s[0]] + s[1..] == s;
      assert (s + "\n" + t)[1..] == s[1..] + "\n" + t;
    }
  }

  lemma {:induction false} LinesOfJoin(lines: seq<string>)
    requires lines != [] && forall i :: 0 <= i < |lines| ==> OneLine(lines[i])
    ensures Lines(Join(lines)) == lines
  {
    if |lines| == 1 {
      LinesOfLine(lines[0]);
    } else {
      LinesConcat(lines[0], Join(lines[1..]));
      LinesOfJoin(lines[1..]);
    }
  }

  lemma CleanLinesOfJoin(lines: seq<string>)
    requires AllClean(lines)
    ensures CleanLines(Join(lines)) == lines
  {
    if lines == [] {
      assert Clean("") == "";
      assert CleanAll([""]) == CleanAll([""][1..]);
    } else {
      LinesOfJoin(lines);
      CleanAllAgain(lines);
    }
  }

  lemma {:induction false} JoinConcat(a: seq<string>, b: seq<string>)
    requires a != [] && b != []
    ensures Join(a + b) == Join(a) + "\n" + Join(b)
  {
    if |a| == 1 {
      assert (a + b)[1..] == b;
    } else {
      assert (a + b)[1..] == a[1..] + b;
      JoinConcat(a[1..], b);
      assert Join(a + b) == a[0] + "\n" + (Join(a[1..]) + "\n" + Join(b));
      assert a[0] + "\n" + (Join(a[1..]) + "\n" + Join(b)) == (a[0] + "\n" + Join(a[1..])) + "\n" + Join(b);
    }
  }

  // ----- Nothing is lost or reordered -----

  lemma {:induction false} StatementsEmpty(open: seq<string>, lines: seq<string>)
    ensures Statements(open, lines) == [] <==> open == [] && Kept(lines, true) == []
    decreases |lines|
  {
    if lines != [] {
      if EndsStatement(lines[0]) {
        StatementsEmpty([], lines[1..]);
      } else {
        StatementsEmpty(open + [lines[0]], lines[1..]);
      }
    }
  }

  /** An ended statement in front of the rest joins to its lines in front of the lines of the rest. */
  lemma JoinEnded(ended: seq<string>, rest: seq<string>, kept: seq<string>)
    requires ended != [] && Join(rest) == Join(kept) && (rest == [] <==> kept == [])
    ensures Join([Join(ended)] + rest) == Join(ended + kept)
  {
    if rest == [] {
      assert [Join(ended)] + rest == [Join(ended)] && ended + kept == ended;
    } else {
      JoinConcat([Join(ended)], rest);
      JoinConcat(ended, kept);
    }
  }

  /** An ended line closes a statement, unless it is a lone ";" where one would start. */
  lemma Emits(open: seq<string>, lines: seq<string>)
    requires lines != [] && EndsStatement(lines[0]) && (open != [] || lines[0] != ";")
    ensures Statements(open, lines) == [Join(open + [lines[0]])] + Statements([], lines[1..])
    ensures Kept(lines, open == []) == [lines[0]] + Kept(lines[1..], true)
  {
    hide Join;
  }

  lemma Skips(lines: seq<string>)
    requires lines != [] && lines[0] == ";"
    ensures Statements([], lines) == Statements([], lines[1..])
    ensures Kept(lines, true) == Kept(lines[1..], true)
  {
    hide Join;
    assert EndsStatement(";");
    assert [] + Statements([], lines[1..]) == Statements([], lines[1..]);
  }

  lemma JoinEmits(open: seq<string>, lines: seq<string>)
    requires lines != [] && EndsStatement(lines[0])
    requires Join(Statements([], lines[1..])) == Join(Kept(lines[1..], true))
    ensures Join(Statements(open, lines)) == Join(open + Kept(lines, open == []))
  {
    hide Join, Statements, Kept, EndsStatement;
    var rest, kept := Statements([], lines[1..]), Kept(lines[1..], true);
    if open == [] && lines[0] == ";" {
      Skips(lines);
      assert [] + kept == kept;
    } else {
      Emits(open, lines);
      StatementsEmpty([], lines[1..]);
      assert open + ([lines[0]] + kept) == (open + [lines[0]]) + kept;
      JoinEnded(open + [lines[0]], rest, kept);
    }
  }

  lemma {:induction false} JoinStatements(open: seq<string>, lines: seq<string>)
    ensures Join(Statements(open, lines)) == Join(open + Kept(lines, open == []))
    decreases |lines|
  {
    if lines == [] {
      assert open + Kept(lines, open == []) == open;
    } else if EndsStatement(lines[0]) {
      JoinStatements([], lines[1..]);
      hide Join, Statements, Kept, EndsStatement;
      assert [] + Kept(lines[1..], true) == Kept(lines[1..], true);
      JoinEmits(open, lines);
    } else {
      JoinStatements(open + [lines[0]], lines[1..]);
      var kept := Kept(lines[1..], false);
      assert Statements(open, lines) == Statements(open + [lines[0]], lines[1..]);
      assert Kept(lines, open == []) == [lines[0]] + kept;
      hide Join, Statements, Kept, EndsStatement;
      assert open + ([lines[0]] + kept) == (open + [lines[0]]) + kept;
    }
  }

  lemma {:induction false} StatementsOfKept(open: seq<string>, lines: seq<string>)
    ensures Statements(open, Kept(lines, open == [])) == Statements(open, lines)
    decreases |lines|
  {
    if lines != [] {
      if EndsStatement(lines[0]) {
        StatementsOfKept([], lines[1..]);
        if open == [] && lines[0] == ";" {
        } else {
          assert Kept(lines, open == [])[1..] == Kept(lines[1..], true);
        }
      } else {
        StatementsOfKept(open + [lines[0]], lines[1..]);
        assert Kept(lines, open == [])[1..] == Kept(lines[1..], false);
      }
    }
  }

  lemma {:induction false} KeptClean(lines: seq<string>, atStart: bool)
    requires AllClean(lines)
    ensures AllClean(Kept(lines, atStart))
    decreases |lines|
  {
    if lines != [] {
      KeptClean(lines[1..], true);
      KeptClean(lines[1..], EndsStatement(lines[0]));
    }
  }

  function Split(script: string): seq<string> {
    Statements([], CleanLines(script))
  }

  lemma ScriptLinesClean(script: string)
    ensures AllClean(CleanLines(script))
  {
    LinesAreLines(script);
    CleanAllIsClean(Lines(script));
  }

  /** Joining the statements gives the clean lines of the script, in order, minus the lone ";" ones. */
  lemma NothingLost(script: string)
    ensures Join(Split(script)) == Join(Kept(CleanLines(script), true))
    ensures CleanLines(Join(Split(script))) == Kept(CleanLines(script), true)
  {
    JoinStatements([], CleanLines(script));
    assert [] + Kept(CleanLines(script), true) == Kept(CleanLines(script), true);
    ScriptLinesClean(script);
    KeptClean(CleanLines(script), true);
    CleanLinesOfJoin(Kept(CleanLines(script), true));
  }

  /** Splitting the joined statements gives the same statements again. */
  lemma SplitAgain(script: string)
    ensures Split(Join(Split(script))) == Split(script)
  {
    NothingLost(script);
    StatementsOfKept([], CleanLines(script));
  }

  // ----- The same in values -----

  /** A character is white space exactly if its code is one of these. */
  lemma SpaceCodes(c: char)
    ensures var n := c as int;
            IsSpace(c) <==>
            n in {9, 10, 11, 12, 13, 32, 133, 160, 5760, 8192, 8193, 8194, 8195, 8196, 8197, 8198, 8199, 8200, 8201,
                  8202, 8232, 8233, 8239, 8287, 12288}
  {
  }

  /** The lines of a text have no line break in them and, joined by line breaks, are the text. */
  lemma {:induction false} LinesExactly(s: string)
    ensures Join(Lines(s)) == s
    ensures forall i, k :: 0 <= i < |Lines(s)| && 0 <= k < |Lines(s)[i]| ==> Lines(s)[i][k] != '\n'
  {
    if s != [] {
      LinesExactly(s[1..]);
      var rest := Lines(s[1..]);
      if s[0] == '\n' {
        assert Lines(s) == [""] + rest && Lines(s)[1..] == rest;
        assert "" + "\n" + s[1..] == s;
      } else {
        var first := [s[0]] + rest[0];
        assert Lines(s) == [first] + rest[1..] && Lines(s)[1..] == rest[1..];
        assert [s[0]] + s[1..] == s;
        if |rest| > 1 {
          assert first + "\n" + Join(rest[1..]) == [s[0]] + (rest[0] + "\n" + Join(rest[1..]));
        }
      }
    }
  }

  /** Two dashes stand at this place. */
  predicate DashesAt(line: string, k: nat) {
    k + 1 < |line| && line[k] == '-' && line[k + 1] == '-'
  }

  /** Stripping keeps everything before the first two dashes, and the whole line when there are none. */
  lemma {:induction false} StripExactly(line: string)
    ensures var s := StripComment(line);
            && s <= line && (s == line || DashesAt(line, |s|))
            && forall k: nat :: k < |s| ==> !DashesAt(line, k)
  {
    if line != [] && !DashesAt(line, 0) {
      StripExactly(line[1..]);
      var s, rest := StripComment(line), StripComment(line[1..]);
      assert s == [line[0]] + rest;
      forall k: nat | k < |s| ensures !DashesAt(line, k) {
        assert k > 0 ==> !DashesAt(line[1..], k - 1);
      }
    }
  }

  lemma {:induction false} TrimLeftExactly(s: string) returns (i: nat)
    ensures i <= |s| && TrimLeft(s) == s[i..] && forall k :: 0 <= k < i ==> IsSpace(s[k])
    ensures i < |s| ==> !IsSpace(s[i])
  {
    i := 0;
    if s != [] && IsSpace(s[0]) {
      i := TrimLeftExactly(s[1..]);
      i := i + 1;
    }
  }

  lemma {:induction false} TrimRightExactly(s: string) returns (j: nat)
    ensures j <= |s| && TrimRight(s) == s[..j] && forall k :: j <= k < |s| ==> IsSpace(s[k])
    ensures j > 0 ==> !IsSpace(s[j - 1])
  {
    j := |s|;
    if s != [] && IsSpace(s[|s| - 1]) {
      j := TrimRightExactly(s[..|s| - 1]);
      assert s[..|s| - 1][..j] == s[..j];
    }
  }

  /** Trimming takes off white space at both ends, all of it, and nothing else. */
  lemma TrimExactly(s: string) returns (i: nat, j: nat)
    ensures i <= j <= |s| && TrimSpace(s) == s[i..j]
    ensures forall k :: 0 <= k < i || j <= k < |s| ==> IsSpace(s[k])
    ensures i < j ==> !IsSpace(s[i]) && !IsSpace(s[j - 1])
  {
    i := TrimLeftExactly(s);
    var n := TrimRightExactly(s[i..]);
    j := i + n;
    assert s[i..][..n] == s[i..j];
    forall k | j <= k < |s| ensures IsSpace(s[k]) {
      assert s[k] == s[i..][k - i];
    }
    if i < j {
      assert s[i..][n - 1] == s[j - 1];
    }
  }

  /** One more line adds its text before a comment, trimmed, to the clean lines, unless that is empty. */
  lemma {:induction false} CleanSnoc(lines: seq<string>, line: string)
    ensures var text := TrimSpace(StripComment(line));
            CleanAll(lines + [line]) == CleanAll(lines) + if text == "" then [] else [text]
  {
    if lines == [] {
      assert ([line])[1..] == [];
    } else {
      CleanSnoc(lines[1..], line);
      assert (lines + [line])[1..] == lines[1..] + [line];
    }
  }

  /** A line ends a statement exactly if it is some text with a semicolon after it. */
  lemma EndsExactly(line: string)
    ensures EndsStatement(line) <==> exists text: string :: line == text + ";"
  {
    if EndsStatement(line) {
      assert line == line[..|line| - 1] + ";";
    }
  }

  /** Line i is a semicolon by itself where no statement is open: at the start, or after a line that closes one. */
  predicate Lone(lines: seq<string>, i: nat)
    requires i < |lines|
  {
    lines[i] == ";" && (i == 0 || EndsStatement(lines[i - 1]))
  }

  /** How many of the first n lines close a statement. */
  function Closed(lines: seq<string>, n: nat): nat
    requires n <= |lines|
  {
    if n == 0 then 0 else Closed(lines, n - 1) + if EndsStatement(lines[n - 1]) && !Lone(lines, n - 1) then 1 else 0
  }

  /** The first n lines without lone semicolons. */
  function Solid(lines: seq<string>, n: nat): seq<string>
    requires n <= |lines|
  {
    if n == 0 then [] else Solid(lines, n - 1) + if Lone(lines, n - 1) then [] else [lines[n - 1]]
  }

  lemma {:induction false} CountFrom(lines: seq<string>, i: nat, open: seq<string>)
    requires i <= |lines| && (open == [] <==> i == 0 || EndsStatement(lines[i - 1]))
    ensures |Statements(open, lines[i..])| + Closed(lines, i) ==
            Closed(lines, |lines|) + if lines != [] && !EndsStatement(lines[|lines| - 1]) then 1 else 0
    decreases |lines| - i
  {
    if i < |lines| {
      assert lines[i..][0] == lines[i] && lines[i..][1..] == lines[i + 1..];
      CountFrom(lines, i + 1, if EndsStatement(lines[i]) then [] else open + [lines[i]]);
    }
  }

  lemma {:induction false} SolidFrom(lines: seq<string>, i: nat)
    requires i <= |lines|
    ensures Solid(lines, i) + Kept(lines[i..], i == 0 || EndsStatement(lines[i - 1])) == Solid(lines, |lines|)
    decreases |lines| - i
  {
    if i < |lines| {
      assert lines[i..][0] == lines[i] && lines[i..][1..] == lines[i + 1..];
      SolidFrom(lines, i + 1);
      var kept := Kept(lines[i + 1..], EndsStatement(lines[i]));
      assert Solid(lines, i) + ([lines[i]] + kept) == (Solid(lines, i) + [lines[i]]) + kept;
    }
  }

  lemma {:induction false} JoinCloses(lines: seq<string>)
    requires AllClean(lines) && lines != []
    ensures EndsStatement(Join(lines)) <==> EndsStatement(lines[|lines| - 1])
    ensures Join(lines) != ""
  {
    if |lines| > 1 {
      JoinCloses(lines[1..]);
      assert lines[1..][|lines| - 2] == lines[|lines| - 1];
    }
  }

  /** No line of the text but its last closes a statement. */
  predicate OneStatement(text: string) {
    forall j :: 0 <= j < |Lines(text)| - 1 ==>
      var line := Lines(text)[j]; line == "" || line[|line| - 1] != ';'
  }

  lemma GroupIsOne(group: seq<string>)
    requires AllClean(group) && group != [] && forall j :: 0 <= j < |group| - 1 ==> !EndsStatement(group[j])
    ensures OneStatement(Join(group)) && Lines(Join(group)) == group
  {
    LinesOfJoin(group);
  }

  lemma {:induction false} StatementsAreOne(open: seq<string>, lines: seq<string>, i: nat)
    requires AllClean(open) && AllClean(lines) && forall j :: 0 <= j < |open| ==> !EndsStatement(open[j])
    requires i < |Statements(open, lines)|
    ensures OneStatement(Statements(open, lines)[i])
    ensures i < |Statements(open, lines)| - 1 ==> EndsStatement(Statements(open, lines)[i])
    decreases |lines|
  {
    if lines == [] {
      GroupIsOne(open);
    } else if EndsStatement(lines[0]) {
      if open == [] && lines[0] == ";" {
        StatementsAreOne([], lines[1..], i);
      } else if i == 0 {
        GroupIsOne(open + [lines[0]]);
        JoinCloses(open + [lines[0]]);
      } else {
        StatementsAreOne([], lines[1..], i - 1);
      }
    } else {
      StatementsAreOne(open + [lines[0]], lines[1..], i);
    }
  }

  /** What the statements are: their lines, in order, are the clean lines of the script but the lone semicolons;
      each statement but the last ends in a semicolon, no line of one does before its last; and there are as many
      as clean lines that close one, lone semicolons not counted, and one more if the last line closes none. */
  lemma SplitExactly(script: string)
    ensures var stmts, lines := Split(script), CleanLines(script);
            && CleanLines(Join(stmts)) == Solid(lines, |lines|)
            && (forall i :: 0 <= i < |stmts| ==> OneStatement(stmts[i]))
            && (forall i :: 0 <= i < |stmts| - 1 ==> stmts[i] != "" && stmts[i][|stmts[i]| - 1] == ';')
            && |stmts| == Closed(lines, |lines|) + if lines != [] && !EndsStatement(lines[|lines| - 1]) then 1 else 0
  {
    var stmts, lines := Split(script), CleanLines(script);
    ScriptLinesClean(script);
    assert lines[0..] == lines;
    CountFrom(lines, 0, []);
    SolidFrom(lines, 0);
    assert Solid(lines, 0) + Kept(lines, true) == Kept(lines, true);
    NothingLost(script);
    forall i | 0 <= i < |stmts| ensures OneStatement(stmts[i]) && (i < |stmts| - 1 ==> EndsStatement(stmts[i])) {
      StatementsAreOne([], lines, i);
    }
  }

  // ----- The loop -----

  /** What the string builder holds after the given lines. */
  function Written(lines: seq<string>): string {
    if lines == [] then "" else Join(lines) + "\n"
  }

  lemma WrittenSnoc(lines: seq<string>, line: string)
    ensures Written(lines) + line + "\n" == Written(lines + [line])
  {
    if lines != [] {
      JoinConcat(lines, [line]);
    }
  }

  lemma {:induction false} JoinEnds(lines: seq<string>)
    requires AllClean(lines) && lines != []
    ensures Trimmed(Join(lines))
    ensures Join(lines) == ";" <==> lines == [";"]
  {
    if |lines| > 1 {
      JoinEnds(lines[1..]);
    }
  }

  lemma TrimWritten(lines: seq<string>)
    requires AllClean(lines)
    ensures TrimSpace(Written(lines)) == Join(lines)
  {
    if lines != [] {
      JoinEnds(lines);
      var s := Join(lines);
      assert TrimLeft(s + "\n") == s + "\n";
      assert (s + "\n")[..|s|] == s;
      assert TrimRight(s + "\n") == TrimRight(s) == s;
    }
  }

  /** What a line adds: nothing if it is blank, and otherwise a line to the open statement, which it may end. */
  lemma LineStep(open: seq<string>, line: string, later: seq<string>)
    requires AllClean(open) && OneLine(line)
    ensures var trimmed, grown := Clean(line), open + [Clean(line)];
            var now := CleanAll([line] + later);
            if trimmed == "" then now == CleanAll(later)
            else
              && AllClean(grown) && Written(open) + trimmed + "\n" == Written(grown)
              && TrimSpace(Written(grown)) == Join(grown) != ""
              && Statements(open, now) ==
                 if !EndsStatement(trimmed) then Statements(grown, CleanAll(later))
                 else (if Join(grown) == ";" then [] else [Join(grown)]) + Statements([], CleanAll(later))
  {
    var trimmed, grown := Clean(line), open + [Clean(line)];
    assert ([line] + later)[1..] == later;
    CleanIsClean(line);
    if trimmed != "" {
      var now := CleanAll([line] + later);
      assert now == [trimmed] + CleanAll(later) && now[1..] == CleanAll(later);
      WrittenSnoc(open, trimmed);
      TrimWritten(grown);
      JoinEnds(grown);
      hide Clean, CleanAll, Written, Join, TrimSpace, IsClean;
      assert grown == [";"] <==> open == [] && trimmed == ";";
    }
  }

  /** With the statements found so far and the lines still open, the rest of the lines yields all statements. */
  predicate Owes(stmts: seq<string>, open: seq<string>, lines: seq<string>, all: seq<string>) {
    AllClean(open) && stmts + Statements(open, CleanAll(lines)) == all
  }

  function Flushed(stmts: seq<string>, buf: string): seq<string> {
    if TrimSpace(buf) != "" && TrimSpace(buf) != ";" then stmts + [TrimSpace(buf)] else stmts
  }

  lemma OwesLine(stmts: seq<string>, open: seq<string>, line: string, later: seq<string>, all: seq<string>)
    requires Owes(stmts, open, [line] + later, all) && OneLine(line)
    ensures var trimmed, grown := Clean(line), open + [Clean(line)];
            if trimmed == "" then Owes(stmts, open, later, all)
            else
              && Written(open) + trimmed + "\n" == Written(grown)
              && (if EndsStatement(trimmed) then Owes(Flushed(stmts, Written(grown)), [], later, all)
                  else Owes(stmts, grown, later, all))
  {
    LineStep(open, line, later);
    var trimmed, grown := Clean(line), open + [Clean(line)];
    var rest := Statements([], CleanAll(later));
    hide Statements, CleanAll, Clean, TrimSpace, Written, Join, EndsStatement;
    assert [] + rest == rest;
    assert (stmts + [Join(grown)]) + rest == stmts + ([Join(grown)] + rest);
  }

  lemma OwesLast(stmts: seq<string>, open: seq<string>, all: seq<string>)
    requires Owes(stmts, open, [], all)
    ensures all == if TrimSpace(Written(open)) == "" then stmts else stmts + [TrimSpace(Written(open))]
  {
    TrimWritten(open);
    if open != [] {
      JoinEnds(open);
    }
  }

  lemma OwesAll(script: string)
    ensures Owes([], [], Lines(script), Split(script)) && Written([]) == ""
    ensures forall i :: 0 <= i < |Lines(script)| ==> OneLine(Lines(script)[i])
  {
    LinesAreLines(script);
    assert [] + Split(script) == Split(script);
  }

  method SplitSQL(script: string) returns (stmts: seq<string>)
    ensures stmts == Split(script)
    ensures forall i :: 0 <= i < |stmts| ==> OneStatement(stmts[i])
    ensures forall i :: 0 <= i < |stmts| - 1 ==> stmts[i] != "" && stmts[i][|stmts[i]| - 1] == ';'
  {
    SplitExactly(script);
    stmts := [];
    var buf := "";
    ghost var open: seq<string> := [];
    var lines := Lines(script);
    OwesAll(script);
    hide Owes, IsSpace, TrimSpace, StripComment, Written, EndsStatement, Lines, Split, OneLine, OneStatement;
    assert lines[0..] == lines;
    for i := 0 to |lines|
      invariant buf == Written(open) && Owes(stmts, open, lines[i..], Split(script))
    {
      var line := StripComment(lines[i]);
      var trimmed := TrimSpace(line);
      assert lines[i..] == [lines[i]] + lines[i + 1..];
      OwesLine(stmts, open, lines[i], lines[i + 1..], Split(script));
      if trimmed == "" {
        continue;
      }
      buf := buf + trimmed + "\n";
      open := open + [trimmed];
      if EndsStatement(trimmed) {
        var stmt := TrimSpace(buf);
        if stmt != "" && stmt != ";" {
          stmts := stmts + [stmt];
        }
        buf := "";
        open := [];
      }
    }
    assert lines[|lines|..] == [];
    OwesLast(stmts, open, Split(script));
    var stmt := TrimSpace(buf);
    if stmt != "" {
      stmts := stmts + [stmt];
    }
  }
}
