/** The line layer of configuration files: physical lines, logical lines with comments dropped and
    backslash continuations merged, and directives made of a key and a value. */
module ConfigLines {
  import opened Common
  import opened Text

  // ---------- Physical lines ----------

  function LineLength(s: string): (n: nat)
    ensures n <= |s|
  {
    if s == "" || s[0] == '\n' then 0 else 1 + LineLength(s[1..])
  }

  function DropReturn(line: string): string {
    if EndsWith(line, '\r') then line[..|line| - 1] else line
  }

  /** Lines end at newlines, a carriage return before a newline belongs to the line end, and a
      final newline starts no further line. */
  function Lines(s: string): seq<string>
    decreases |s|
  {
    var n := LineLength(s);
    if s == "" then []
    else if n == |s| then [s]
    else [DropReturn(s[..n])] + Lines(s[n + 1..])
  }

  predicate Unbroken(line: string) {
    '\n' !in line
  }

  /** A line that survives being written and read back. */
  predicate Clean(line: string) {
    Unbroken(line) && !EndsWith(line, '\r')
  }

  function Unlines(lines: seq<string>): string {
    if lines == [] then "" else lines[0] + "\n" + Unlines(lines[1..])
  }

  lemma {:induction false} LineLengthIs(s: string)
    ensures Unbroken(s[..LineLength(s)])
    ensures LineLength(s) < |s| ==> s[LineLength(s)] == '\n'
  {
    if s != "" && s[0] != '\n' {
      LineLengthIs(s[1..]);
      assert s[..LineLength(s)] == [s[0]] + s[1..][..LineLength(s[1..])];
    }
  }

  lemma {:induction false} LineLengthOf(line: string, rest: string)
    requires Unbroken(line) && (rest == "" || rest[0] == '\n')
    ensures LineLength(line + rest) == |line|
  {
    if line == "" {
      assert line + rest == rest;
    } else {
      assert line[0] in line && (line + rest)[1..] == line[1..] + rest;
      LineLengthOf(line[1..], rest);
    }
  }

  lemma LinesCons(line: string, rest: string)
    requires Unbroken(line)
    ensures Lines(line + "\n" + rest) == [DropReturn(line)] + Lines(rest)
  {
    var s := line + "\n" + rest;
    assert s == line + ("\n" + rest);
    LineLengthOf(line, "\n" + rest);
    assert s[..|line|] == line && s[|line| + 1..] == rest;
  }

  lemma LinesSingle(line: string)
    requires Unbroken(line)
    ensures Lines(line) == if line == "" then [] else [line]
  {
    assert line + "" == line;
    LineLengthOf(line, "");
  }

  /** A text without a newline, or its first line and the rest. */
  lemma FirstLine(s: string) returns (line: string, rest: string)
    ensures Unbroken(line) && (s == line || s == line + "\n" + rest)
    ensures !Unbroken(s) ==> s == line + "\n" + rest
    ensures |rest| < |s| || s == line
  {
    LineLengthIs(s);
    var n := LineLength(s);
    line, rest := s[..n], if n < |s| then s[n + 1..] else "";
  }

  lemma {:induction false} LinesOfUnlines(lines: seq<string>)
    requires forall l :: l in lines ==> Clean(l)
    ensures Lines(Unlines(lines)) == lines
  {
    if lines != [] {
      assert lines[0] in lines;
      LinesOfUnlines(lines[1..]);
      LinesCons(lines[0], Unlines(lines[1..]));
    }
  }

  lemma {:induction false} UnlinesIsJoin(lines: seq<string>)
    ensures Join(lines + [""], "\n") == Unlines(lines)
  {
    if lines != [] {
      assert (lines + [""])[1..] == lines[1..] + [""];
      UnlinesIsJoin(lines[1..]);
    }
  }

  lemma {:induction false} LinesAppend(a: string, b: string)
    ensures Lines(a + "\n" + b) == Lines(a + "\n") + Lines(b)
    decreases |a|
  {
    var line, rest := FirstLine(a);
    if a == line {
      LinesCons(a, b);
      LinesCons(a, "");
      assert a + "\n" + "" == a + "\n";
    } else {
      LinesAppend(rest, b);
      var first, last := rest + "\n" + b, rest + "\n";
      assert a + "\n" + b == line + "\n" + first && a + "\n" == line + "\n" + last;
      LinesCons(line, first);
      LinesCons(line, last);
      Reassociate([DropReturn(line)], Lines(last), Lines(b));
    }
  }

  // ---------- Logical lines ----------

  function TrimBackslashes(s: string): string {
    if EndsWith(s, '\\') then TrimBackslashes(s[..|s| - 1]) else s
  }

  function Appended(current: string, piece: string): string {
    if current == "" then piece else current + " " + piece
  }

  function Flush(current: string): seq<string> {
    if current == "" then [] else [Trim(current)]
  }

  /** What one physical line emits and what stays pending after it. */
  function Absorb(raw: string, current: string): (seq<string>, string) {
    var trimmedEnd := TrimEnd(raw);
    var trimmed := Trim(trimmedEnd);
    if StartsWith(trimmed, '#') then ([], current)
    else if EndsWith(trimmedEnd, '\\') then
      var piece := TrimEnd(TrimBackslashes(trimmedEnd));
      ([], if piece == "" then current else Appended(current, Trim(piece)))
    else if trimmed != "" then (if current == "" then [trimmed] else [Trim(Appended(current, trimmed))], "")
    else (Flush(current), "")
  }

  function LogicalFrom(lines: seq<string>, current: string): seq<string>
    decreases lines
  {
    if lines == [] then Flush(current)
    else Absorb(lines[0], current).0 + LogicalFrom(lines[1..], Absorb(lines[0], current).1)
  }

  function LogicalLines(text: string): seq<string> {
    LogicalFrom(Lines(text), "")
  }

  method CollectLogicalLines(text: string) returns (merged: seq<string>)
    ensures merged == LogicalLines(text)
  {
    merged := [];
    var current := "";
    var lines := Lines(text);
    assert lines[0..] == lines;
    for i := 0 to |lines|
      invariant merged + LogicalFrom(lines[i..], current) == LogicalLines(text)
    {
      assert lines[i..][0] == lines[i] && lines[i..][1..] == lines[i + 1..];
      var emitted, pending := AbsorbLine(lines[i], current);
      Reassociate(merged, emitted, LogicalFrom(lines[i + 1..], pending));
      merged, current := merged + emitted, pending;
    }
    if current != "" {
      merged := merged + [Trim(current)];
    }
  }

  /** The branches for one physical line. */
  method AbsorbLine(raw: string, pending: string) returns (emitted: seq<string>, current: string)
    ensures (emitted, current) == Absorb(raw, pending)
  {
    emitted, current := [], pending;
    var trimmedEnd := TrimEnd(raw);
    var trimmed := Trim(trimmedEnd);
    if StartsWith(trimmed, '#') {
      return;
    }
    if EndsWith(trimmedEnd, '\\') {
      var piece := TrimEnd(TrimBackslashes(trimmedEnd));
      if piece != "" {
        if current != "" {
          current := current + " ";
        }
        assert "" + Trim(piece) == Trim(piece);
        current := current + Trim(piece);
      }
      return;
    }
    if trimmed != "" {
      if current != "" {
        current := current + " ";
        current := current + trimmed;
        emitted := [Trim(current)];
        current := "";
      } else {
        emitted := [trimmed];
      }
    } else if current != "" {
      emitted := [Trim(current)];
      current := "";
    }
  }

  /** Only the trimmed line matters. */
  function AbsorbTrimmed(trimmed: string, current: string): (seq<string>, string) {
    if StartsWith(trimmed, '#') then ([], current)
    else if EndsWith(trimmed, '\\') then
      var piece := Trim(TrimBackslashes(trimmed));
      ([], if piece == "" then current else Appended(current, piece))
    else if trimmed != "" then (if current == "" then [trimmed] else [Trim(Appended(current, trimmed))], "")
    else (Flush(current), "")
  }

  lemma {:induction false} TrimBackslashesOfPadded(a: string, s: string)
    requires Blank(a)
    ensures TrimBackslashes(a + s) == a + TrimBackslashes(s)
    decreases |s|
  {
    if s == "" {
      assert a + s == a;
      assert a != "" ==> a[|a| - 1] in a;
    } else if EndsWith(s, '\\') {
      assert (a + s)[..|a + s| - 1] == a + s[..|s| - 1];
      TrimBackslashesOfPadded(a, s[..|s| - 1]);
    }
  }

  lemma TrimEndPadded(a: string, s: string)
    requires Blank(a)
    ensures Trim(TrimEnd(a + s)) == Trim(s) && (TrimEnd(a + s) == "" <==> Trim(s) == "")
  {
    var b, c := TrimSplits(s);
    var t := Trim(s);
    TrimIsTight(s);
    assert a + s == a + b + t + c;
    TrimEndOfBlank(a + b + t, c);
    if t == "" {
      assert a + b + t == "" + (a + b);
      TrimEndOfBlank("", a + b);
    } else {
      assert TrimEnd(a + b + t) == a + b + t;
      assert a + b + t == a + b + t + "";
      TrimOfPadded(a + b, t, "");
    }
  }

  lemma TrimOfTrimEnd(raw: string)
    ensures Trim(TrimEnd(raw)) == Trim(raw)
  {
    TrimEndPadded("", raw);
    assert "" + raw == raw;
  }

  /** The text before a trailing continuation does not depend on the blanks around the line. */
  lemma BackslashesTrimmed(raw: string)
    requires Trim(raw) != ""
    ensures EndsWith(TrimEnd(raw), '\\') <==> EndsWith(Trim(raw), '\\')
    ensures var piece := TrimEnd(TrimBackslashes(TrimEnd(raw)));
            Trim(piece) == Trim(TrimBackslashes(Trim(raw))) && (piece == "" <==> Trim(piece) == "")
  {
    var a := TrimEndIs(raw);
    TrimBackslashesOfPadded(a, Trim(raw));
    TrimEndPadded(a, TrimBackslashes(Trim(raw)));
  }

  lemma TrimEndIs(raw: string) returns (a: string)
    requires Trim(raw) != ""
    ensures Blank(a) && TrimEnd(raw) == a + Trim(raw)
  {
    var blank, b := TrimSplits(raw);
    a := blank;
    TrimIsTight(raw);
    TrimEndOfBlank(a + Trim(raw), b);
    assert TrimEnd(a + Trim(raw)) == a + Trim(raw);
  }

  lemma AbsorbTrims(raw: string, current: string)
    ensures Absorb(raw, current) == AbsorbTrimmed(Trim(raw), current)
  {
    TrimOfTrimEnd(raw);
    if Trim(raw) == "" {
      TrimEndPadded("", raw);
      assert "" + raw == raw;
    } else {
      BackslashesTrimmed(raw);
    }
  }

  /** Lines with equal trimmed text are interchangeable. */
  lemma {:induction false} LogicalOfTrimmed(ls: seq<string>, ms: seq<string>, current: string)
    requires |ls| == |ms| && forall i :: 0 <= i < |ls| ==> Trim(ls[i]) == Trim(ms[i])
    ensures LogicalFrom(ls, current) == LogicalFrom(ms, current)
    decreases ls
  {
    if ls != [] {
      AbsorbTrims(ls[0], current);
      AbsorbTrims(ms[0], current);
      LogicalOfTrimmed(ls[1..], ms[1..], Absorb(ls[0], current).1);
    }
  }

  // ---------- Blank ends do not matter ----------

  lemma TrimIgnoresEnds(l: string, c: char)
    requires IsSpace(c)
    ensures Trim([c] + l) == Trim(l) && Trim(l + [c]) == Trim(l)
  {
    var a, b := TrimSplits(l);
    TrimIsTight(l);
    assert [c] + l == [c] + a + Trim(l) + b && l + [c] == a + Trim(l) + (b + [c]);
    TrimOfPadded([c] + a, Trim(l), b);
    TrimOfPadded(a, Trim(l), b + [c]);
  }

  lemma TrimOfDropReturn(l: string)
    ensures Trim(DropReturn(l)) == Trim(l)
  {
    if EndsWith(l, '\r') {
      TrimIgnoresEnds(l[..|l| - 1], '\r');
      assert l[..|l| - 1] + ['\r'] == l;
    }
  }

  lemma BlankLine(line: string, current: string)
    requires Trim(line) == ""
    ensures Absorb(line, current) == (Flush(current), "")
    ensures LogicalFrom([line], current) == Flush(current)
  {
    AbsorbTrims(line, current);
    assert [line][1..] == [];
  }

  lemma {:induction false} BlankAfter(u: string, c: char, current: string)
    requires IsSpace(c)
    ensures LogicalFrom(Lines(u + [c]), current) == LogicalFrom(Lines(u), current)
    decreases |u|
  {
    var line, rest := FirstLine(u);
    if u == line {
      LinesSingle(u);
      TrimIgnoresEnds(u, c);
      var last := if c == '\n' then DropReturn(u) else u + [c];
      if c == '\n' {
        LinesCons(u, "");
        assert u + "\n" + "" == u + [c];
        TrimOfDropReturn(u);
      } else {
        LinesSingle(u + [c]);
      }
      assert Lines(u + [c]) == [last];
      if u == "" {
        BlankLine(last, current);
      } else {
        LogicalOfTrimmed([last], [u], current);
      }
    } else {
      assert u + [c] == line + "\n" + (rest + [c]);
      LinesCons(line, rest);
      LinesCons(line, rest + [c]);
      BlankAfter(rest, c, Absorb(DropReturn(line), current).1);
    }
  }

  lemma BlankBefore(c: char, u: string)
    requires IsSpace(c)
    ensures LogicalLines([c] + u) == LogicalLines(u)
  {
    if c == '\n' {
      LinesCons("", u);
      assert "" + "\n" + u == [c] + u;
      BlankLine("", "");
      assert [DropReturn("")] + Lines(u) == Lines([c] + u);
    } else {
      var line, rest := FirstLine(u);
      TrimIgnoresEnds(line, c);
      if u == line {
        LinesSingle(u);
        LinesSingle([c] + u);
        if u == "" {
          assert [c] + u == [c] && [c] + line == [c];
          BlankLine([c], "");
        } else {
          LogicalOfTrimmed([[c] + u], [u], "");
        }
      } else {
        assert [c] + u == [c] + line + "\n" + rest;
        FirstLineTrimmed([c] + line, line, rest);
      }
    }
  }

  lemma FirstLineTrimmed(line: string, other: string, rest: string)
    requires Unbroken(line) && Unbroken(other) && Trim(line) == Trim(other)
    ensures LogicalLines(line + "\n" + rest) == LogicalLines(other + "\n" + rest)
  {
    LinesCons(line, rest);
    LinesCons(other, rest);
    TrimOfDropReturn(line);
    TrimOfDropReturn(other);
    LogicalOfTrimmed(Lines(line + "\n" + rest), Lines(other + "\n" + rest), "");
  }

  lemma {:induction false} BlankEnds(a: string, s: string, b: string)
    requires Blank(a) && Blank(b)
    ensures LogicalLines(a + s + b) == LogicalLines(s)
    decreases |a| + |b|
  {
    if b != "" {
      var init, c := b[..|b| - 1], b[|b| - 1];
      assert c in b && a + s + b == (a + s + init) + [c];
      BlankAfter(a + s + init, c, "");
      BlankEnds(a, s, init);
    } else if a != "" {
      assert a[0] in a && a + s + b == [a[0]] + (a[1..] + s + b);
      BlankBefore(a[0], a[1..] + s + b);
      BlankEnds(a[1..], s, b);
    } else {
      assert a + s + b == s;
    }
  }

  lemma LogicalOfTrim(text: string)
    ensures LogicalLines(Trim(text)) == LogicalLines(text)
  {
    var a, b := TrimSplits(text);
    BlankEnds(a, Trim(text), b);
  }

  // ---------- Sections ----------

  function NonemptySections(parts: seq<string>): seq<string> {
    if parts == [] then []
    else (if Trim(parts[0]) == "" then [] else [Trim(parts[0])]) + NonemptySections(parts[1..])
  }

  function JoinNonemptySections(parts: seq<string>): string {
    Join(NonemptySections(parts), "\n\n")
  }

  /** Blank sections leave nothing, not even line ends around the whole. */
  lemma {:induction false} SectionsAreTight(parts: seq<string>)
    ensures Tight(JoinNonemptySections(parts)) && forall p :: p in NonemptySections(parts) ==> p != "" && Tight(p)
    ensures NonemptySections(parts) != [] ==> JoinNonemptySections(parts) != ""
  {
    if parts != [] {
      SectionsAreTight(parts[1..]);
      TrimIsTight(parts[0]);
      var head, rest, all := Trim(parts[0]), NonemptySections(parts[1..]), NonemptySections(parts);
      if head == "" {
        assert all == rest;
      } else if rest == [] {
        assert all == [head];
      } else {
        var tail := Join(rest, "\n\n");
        assert all[1..] == rest && Join(all, "\n\n") == head + "\n\n" + tail;
        assert (head + "\n\n" + tail)[|head| + 2 + |tail| - 1] == tail[|tail| - 1];
      }
    }
  }

  function LogicalOfAll(parts: seq<string>): seq<string> {
    if parts == [] then [] else LogicalLines(parts[0]) + LogicalOfAll(parts[1..])
  }

  lemma {:induction false} BlankLineSeparates(ls: seq<string>, ms: seq<string>, current: string)
    ensures LogicalFrom(ls + [""] + ms, current) == LogicalFrom(ls, current) + LogicalFrom(ms, "")
    decreases ls
  {
    var all := ls + [""] + ms;
    if ls == [] {
      BlankLine("", current);
      assert all[1..] == ms;
    } else {
      assert all[1..] == ls[1..] + [""] + ms;
      BlankLineSeparates(ls[1..], ms, Absorb(ls[0], current).1);
    }
  }

  lemma TwoSections(a: string, b: string)
    ensures LogicalLines(a + "\n\n" + b) == LogicalLines(a) + LogicalLines(b)
  {
    assert a + "\n\n" + b == a + "\n" + ("\n" + b) && "" + "\n" + b == "\n" + b;
    LinesAppend(a, "\n" + b);
    LinesCons("", b);
    assert Lines(a + "\n\n" + b) == Lines(a + "\n") + [""] + Lines(b);
    BlankLineSeparates(Lines(a + "\n"), Lines(b), "");
    BlankAfter(a, '\n', "");
  }

  /** Joining sections loses, merges and reorders no logical line, whatever the sections hold:
      not even an unfinished continuation runs into the next section. */
  lemma {:induction false} SectionsKeepLogicalLines(parts: seq<string>)
    ensures LogicalLines(JoinNonemptySections(parts)) == LogicalOfAll(parts)
  {
    if parts != [] {
      var head, rest := Trim(parts[0]), NonemptySections(parts[1..]);
      SectionsKeepLogicalLines(parts[1..]);
      LogicalOfTrim(parts[0]);
      if head == "" {
        assert LogicalLines("") == [];
        assert NonemptySections(parts) == rest;
      } else if rest == [] {
        assert NonemptySections(parts) == [head];
        assert LogicalLines("") == [];
      } else {
        assert NonemptySections(parts)[1..] == rest;
        TwoSections(head, Join(rest, "\n\n"));
      }
    }
  }

  // ---------- Directives ----------

  datatype Directive = Directive(key: string, value: string)

  predicate IsComment(trimmed: string) {
    StartsWith(trimmed, '#')
  }

  function DirectiveOf(trimmed: string): Directive {
    Directive(KeyOf(trimmed), ValueOf(trimmed))
  }

  /** Every parser skips empty and comment lines and splits the others at the first whitespace. */
  function DirectivesFrom(lines: seq<string>): seq<Directive> {
    if lines == [] then []
    else
      var trimmed := Trim(lines[0]);
      (if trimmed == "" || IsComment(trimmed) then [] else [DirectiveOf(trimmed)]) + DirectivesFrom(lines[1..])
  }

  function Directives(text: string): seq<Directive> {
    DirectivesFrom(LogicalLines(text))
  }

  lemma {:induction false} DirectivesAppend(a: seq<string>, b: seq<string>)
    ensures DirectivesFrom(a + b) == DirectivesFrom(a) + DirectivesFrom(b)
  {
    if a == [] {
      assert a + b == b;
    } else {
      assert (a + b)[1..] == a[1..] + b;
      DirectivesAppend(a[1..], b);
    }
  }

  function DirectivesOfAll(parts: seq<string>): seq<Directive> {
    if parts == [] then [] else Directives(parts[0]) + DirectivesOfAll(parts[1..])
  }

  lemma {:induction false} DirectivesOfLogical(parts: seq<string>)
    ensures DirectivesFrom(LogicalOfAll(parts)) == DirectivesOfAll(parts)
  {
    if parts != [] {
      DirectivesOfLogical(parts[1..]);
      DirectivesAppend(LogicalLines(parts[0]), LogicalOfAll(parts[1..]));
    }
  }

  lemma SectionsKeepDirectives(parts: seq<string>)
    ensures Directives(JoinNonemptySections(parts)) == DirectivesOfAll(parts)
  {
    SectionsKeepLogicalLines(parts);
    DirectivesOfLogical(parts);
  }

  // ---------- Rendered lines ----------

  predicate Silent(line: string) {
    Trim(line) == "" || IsComment(Trim(line))
  }

  /** A line as the renderers write them: one directive, a comment, or blank. */
  predicate Rendered(line: string) {
    Clean(line) && (Silent(line) || !EndsWith(Trim(line), '\\'))
  }

  function Spoken(lines: seq<string>): seq<Directive> {
    if lines == [] then []
    else (if Silent(lines[0]) then [] else [DirectiveOf(Trim(lines[0]))]) + Spoken(lines[1..])
  }

  lemma {:induction false} LogicalOfRendered(lines: seq<string>)
    requires forall l :: l in lines ==> Rendered(l)
    ensures DirectivesFrom(LogicalFrom(lines, "")) == Spoken(lines)
  {
    if lines != [] {
      assert lines[0] in lines;
      LogicalOfRendered(lines[1..]);
      AbsorbTrims(lines[0], "");
      var emitted, t := Absorb(lines[0], "").0, Trim(lines[0]);
      DirectivesAppend(emitted, LogicalFrom(lines[1..], ""));
      if !Silent(lines[0]) {
        TrimIsTight(lines[0]);
        assert [t][1..] == [];
      }
    }
  }

  /** Reading rendered lines back gives one directive for each line that says something. */
  lemma DirectivesOfRendered(lines: seq<string>)
    requires forall l :: l in lines ==> Rendered(l)
    ensures Directives(Unlines(lines)) == Spoken(lines)
  {
    LinesOfUnlines(lines);
    LogicalOfRendered(lines);
  }

  lemma {:induction false} SpokenAppend(a: seq<string>, b: seq<string>)
    ensures Spoken(a + b) == Spoken(a) + Spoken(b)
  {
    if a == [] {
      assert a + b == b;
    } else {
      assert (a + b)[1..] == a[1..] + b;
      SpokenAppend(a[1..], b);
    }
  }

  // ---------- Lines that were read are written again ----------

  lemma {:induction false} LinesAreUnbroken(s: string)
    ensures forall l :: l in Lines(s) ==> Unbroken(l)
    decreases |s|
  {
    var n := LineLength(s);
    LineLengthIs(s);
    if s != "" && n < |s| {
      LinesAreUnbroken(s[n + 1..]);
    } else if s != "" {
      assert s[..n] == s;
    }
  }

  lemma {:induction false} LinesOfUnbroken(lines: seq<string>)
    requires forall l :: l in lines ==> Unbroken(l)
    ensures |Lines(Unlines(lines))| == |lines|
    ensures forall i :: 0 <= i < |lines| ==> Trim(Lines(Unlines(lines))[i]) == Trim(lines[i])
  {
    if lines != [] {
      assert lines[0] in lines;
      LinesOfUnbroken(lines[1..]);
      LinesCons(lines[0], Unlines(lines[1..]));
      TrimOfDropReturn(lines[0]);
    }
  }

  /** Unbroken lines written out have the logical lines they had. */
  lemma LogicalOfWritten(lines: seq<string>)
    requires forall l :: l in lines ==> Unbroken(l)
    ensures LogicalLines(Unlines(lines)) == LogicalFrom(lines, "")
  {
    LinesOfUnbroken(lines);
    LogicalOfTrimmed(Lines(Unlines(lines)), lines, "");
  }

  /** Lines before which every continuation ends: none, or a blank one after comments. */
  predicate Separates(lines: seq<string>) {
    lines == [] || Trim(lines[0]) == "" || (IsComment(Trim(lines[0])) && Separates(lines[1..]))
  }

  lemma CommentSkips(lines: seq<string>, current: string)
    requires lines != [] && IsComment(Trim(lines[0]))
    ensures LogicalFrom(lines, current) == LogicalFrom(lines[1..], current)
  {
    AbsorbTrims(lines[0], current);
    assert [] + LogicalFrom(lines[1..], current) == LogicalFrom(lines[1..], current);
  }

  lemma BlankFlushes(lines: seq<string>, current: string)
    requires lines != [] && Trim(lines[0]) == ""
    ensures LogicalFrom(lines, current) == Flush(current) + LogicalFrom(lines[1..], "")
  {
    BlankLine(lines[0], current);
  }

  lemma {:induction false} SeparatorFlushes(lines: seq<string>, current: string)
    requires Separates(lines)
    ensures LogicalFrom(lines, current) == Flush(current) + LogicalFrom(lines, "")
  {
    if lines != [] {
      if Trim(lines[0]) == "" {
        BlankFlushes(lines, current);
        BlankFlushes(lines, "");
        assert Flush("") + LogicalFrom(lines[1..], "") == LogicalFrom(lines[1..], "");
      } else {
        CommentSkips(lines, current);
        CommentSkips(lines, "");
        SeparatorFlushes(lines[1..], current);
      }
    }
  }

  lemma {:induction false} LogicalSeparated(a: seq<string>, b: seq<string>, current: string)
    requires Separates(b)
    ensures LogicalFrom(a + b, current) == LogicalFrom(a, current) + LogicalFrom(b, "")
    decreases a
  {
    if a == [] {
      assert a + b == b;
      SeparatorFlushes(b, current);
    } else {
      assert (a + b)[1..] == a[1..] + b;
      var (emitted, pending) := Absorb(a[0], current);
      LogicalSeparated(a[1..], b, pending);
      Reassociate(emitted, LogicalFrom(a[1..], pending), LogicalFrom(b, ""));
    }
  }

  // ---------- What lines mean ----------

  function CrlfLines(lines: seq<string>): string {
    if lines == [] then "" else lines[0] + "\r\n" + CrlfLines(lines[1..])
  }

  /** A text with carriage returns has the lines of the text without them. */
  lemma {:induction false} CrlfReadsAlike(lines: seq<string>)
    requires forall l :: l in lines ==> Clean(l)
    ensures Lines(CrlfLines(lines)) == lines == Lines(Unlines(lines))
  {
    LinesOfUnlines(lines);
    if lines != [] {
      assert lines[0] in lines;
      LinesOfUnlines(lines[1..]);
      CrlfReadsAlike(lines[1..]);
      CrlfCons(lines[0], CrlfLines(lines[1..]));
    }
  }

  lemma CrlfCons(line: string, rest: string)
    requires Unbroken(line)
    ensures Lines(line + "\r\n" + rest) == [line] + Lines(rest)
  {
    var ended := line + "\r";
    assert line + "\r\n" + rest == ended + "\n" + rest && ended[..|ended| - 1] == line;
    LinesCons(ended, rest);
  }

  /** Text of a continuation: no blanks around it, no comment, and no backslash at its end. */
  predicate Piece(p: string) {
    p != "" && Tight(p) && !IsComment(p) && !EndsWith(p, '\\')
  }

  predicate Backslashes(s: string) {
    s != "" && forall c :: c in s ==> c == '\\'
  }

  /** A physical line that goes on: a piece, perhaps blanks, and any number of backslashes. */
  ghost predicate GoesOn(raw: string, piece: string) {
    exists blank, ends :: Blank(blank) && Backslashes(ends) && Trim(raw) == piece + blank + ends
  }

  /** A line within a continuation: a comment, or a piece that goes on. */
  ghost predicate Within(raw: string, part: Option<string>) {
    match part
    case None => IsComment(Trim(raw))
    case Some(p) => Piece(p) && GoesOn(raw, p)
  }

  function Pieces(parts: seq<Option<string>>): seq<string> {
    if parts == [] then []
    else
      var last := parts[|parts| - 1];
      Pieces(parts[..|parts| - 1]) + if last.Some? then [last.value] else []
  }

  lemma {:induction false} BackslashesGo(s: string, ends: string)
    requires !EndsWith(s, '\\') && forall c :: c in ends ==> c == '\\'
    ensures TrimBackslashes(s + ends) == s
    decreases |ends|
  {
    if ends == "" {
      assert s + ends == s;
    } else {
      var init := ends[..|ends| - 1];
      assert ends[|ends| - 1] in ends && (s + ends)[..|s + ends| - 1] == s + init;
      assert forall c :: c in init ==> c in ends;
      BackslashesGo(s, init);
    }
  }

  lemma GoingOn(raw: string, piece: string, current: string)
    requires Piece(piece) && GoesOn(raw, piece)
    ensures Absorb(raw, current) == ([], Appended(current, piece))
  {
    var blank, ends :| Blank(blank) && Backslashes(ends) && Trim(raw) == piece + blank + ends;
    AbsorbTrims(raw, current);
    assert ends[|ends| - 1] in ends && (blank != "" ==> blank[|blank| - 1] in blank);
    BackslashesGo(piece + blank, ends);
    assert "" + piece + blank == piece + blank;
    TrimOfPadded("", piece, blank);
  }

  lemma {:induction false} JoinSnoc(parts: seq<string>, last: string)
    requires forall p :: p in parts ==> p != ""
    ensures Join(parts + [last], " ") == Appended(Join(parts, " "), last)
    ensures parts != [] ==> Join(parts, " ") != ""
  {
    if parts != [] {
      assert parts[0] in parts && (parts + [last])[1..] == parts[1..] + [last];
      assert forall p :: p in parts[1..] ==> p in parts;
      JoinSnoc(parts[1..], last);
      if |parts| > 1 {
        var rest := Join(parts[1..], " ");
        assert parts[0] + " " + (rest + " " + last) == parts[0] + " " + rest + " " + last;
      } else {
        assert parts[1..] == [] && [last][1..] == [];
      }
    }
  }

  lemma {:induction false} JoinedIsTight(parts: seq<string>)
    requires forall p :: p in parts ==> p != "" && Tight(p)
    ensures Tight(Join(parts, " ")) && (parts != [] ==> Join(parts, " ") != "")
  {
    if parts != [] {
      assert parts[0] in parts && forall p :: p in parts[1..] ==> p in parts;
      JoinedIsTight(parts[1..]);
    }
  }

  lemma OneGoesOn(raw: string, part: Option<string>, pieces: seq<string>, more: seq<string>)
    requires Within(raw, part) && forall p :: p in pieces ==> p != ""
    ensures LogicalFrom([raw] + more, Join(pieces, " ")) ==
            LogicalFrom(more, Join(pieces + if part.Some? then [part.value] else [], " "))
  {
    assert ([raw] + more)[1..] == more;
    if part.None? {
      AbsorbTrims(raw, Join(pieces, " "));
      assert pieces + [] == pieces;
    } else {
      GoingOn(raw, part.value, Join(pieces, " "));
      JoinSnoc(pieces, part.value);
    }
  }

  lemma TakeOne<T>(s: seq<T>, n: nat, rest: seq<T>)
    requires 0 < n <= |s|
    ensures s[n - 1..] + rest == [s[n - 1]] + (s[n..] + rest)
  {
    assert s[n - 1..] == [s[n - 1]] + s[n..];
  }

  lemma PiecesNext(parts: seq<Option<string>>, n: nat)
    requires 0 < n <= |parts|
    ensures Pieces(parts[..n]) ==
            Pieces(parts[..n - 1]) + if parts[n - 1].Some? then [parts[n - 1].value] else []
  {
    assert parts[..n][..n - 1] == parts[..n - 1];
  }

  lemma {:induction false} PiecesArePieces(lines: seq<string>, parts: seq<Option<string>>, n: nat)
    requires n <= |lines| == |parts| && forall i :: 0 <= i < |lines| ==> Within(lines[i], parts[i])
    ensures forall p :: p in Pieces(parts[..n]) ==> Piece(p)
  {
    if n > 0 {
      PiecesArePieces(lines, parts, n - 1);
      PiecesNext(parts, n);
    }
  }

  lemma {:induction false} PartsGoOn(lines: seq<string>, parts: seq<Option<string>>, n: nat, rest: seq<string>)
    requires n <= |lines| == |parts| && forall i :: 0 <= i < |lines| ==> Within(lines[i], parts[i])
    ensures LogicalFrom(lines + rest, "") == LogicalFrom(lines[n..] + rest, Join(Pieces(parts[..n]), " "))
  {
    if n == 0 {
      assert lines[0..] == lines;
    } else {
      PartsGoOn(lines, parts, n - 1, rest);
      PiecesArePieces(lines, parts, n - 1);
      PiecesNext(parts, n);
      TakeOne(lines, n, rest);
      OneGoesOn(lines[n - 1], parts[n - 1], Pieces(parts[..n - 1]), lines[n..] + rest);
    }
  }

  /** Pieces that go on, comments between them and whatever blanks and backslashes they end in, make one
      logical line with the last piece, joined by single spaces. */
  lemma ContinuationJoins(lines: seq<string>, parts: seq<Option<string>>, last: string, rest: seq<string>)
    requires |lines| == |parts| && forall i :: 0 <= i < |lines| ==> Within(lines[i], parts[i])
    requires Piece(Trim(last))
    ensures LogicalFrom(lines + [last] + rest, "") ==
            [Join(Pieces(parts) + [Trim(last)], " ")] + LogicalFrom(rest, "")
  {
    var pieces, all := Pieces(parts), Pieces(parts) + [Trim(last)];
    PartsGoOn(lines, parts, |lines|, [last] + rest);
    PiecesArePieces(lines, parts, |lines|);
    assert parts[..|parts|] == parts && lines[|lines|..] + ([last] + rest) == [last] + rest;
    Reassociate(lines, [last], rest);
    AbsorbTrims(last, Join(pieces, " "));
    assert ([last] + rest)[1..] == rest;
    JoinSnoc(pieces, Trim(last));
    JoinedIsTight(all);
    TrimOfTight(Join(all, " "));
  }
}
