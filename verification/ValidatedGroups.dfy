/** The bracket check reads trimmed lines, the parsers read directives. Where each line is a directive
    of its own and spells its bracket in full, a text passes the check exactly when the parsers see
    balanced groups. */
module ValidatedGroups {
  import opened Text
  import opened ConfigLines
  import opened Nesting
  import opened GroupAssets
  import B = Brackets

  /** A begin line names its group after a space, and an end line says nothing else. */
  predicate InFull(line: string) {
    var d := DirectiveOf(Trim(line));
    (d.key == "group-begin" ==> "group-begin " <= Trim(line)) && (d.key == "group-end" ==> d.value == "")
  }

  lemma BracketWords()
    ensures IsWord("group-begin") && IsWord("group-end")
    ensures "group-begin" != "group-end" && "group-begin " != "group-end"
  {
    assert |"group-begin"| == 11 && |"group-end"| == 9 && |"group-begin "| == 12;
  }

  lemma BeginIsRead(t: string)
    requires "group-begin " <= t
    ensures KeyOf(t) == "group-begin"
  {
    var rest := t[12..];
    BracketWords();
    assert t == "group-begin" + " " + rest;
    KeyAndValue("group-begin", rest);
  }

  lemma TightValue(t: string)
    requires Tight(t) && WordLength(t) < |t|
    ensures ValueOf(t) != ""
  {
    var n, last := WordLength(t), t[|t| - 1];
    WordLengthIs(t);
    var rest := t[n + 1..];
    assert n < |t| - 1 && last == rest[|rest| - 1] && last in rest;
    BlankTrims(rest);
  }

  lemma EndIsRead(t: string)
    requires Tight(t)
    ensures t == "group-end" <==> KeyOf(t) == "group-end" && ValueOf(t) == ""
  {
    BracketWords();
    KeyAndValue("group-end", "");
    if KeyOf(t) == "group-end" && ValueOf(t) == "" {
      if WordLength(t) < |t| {
        TightValue(t);
      }
    }
  }

  /** Both read a line as the same bracket exactly when it is written in full. */
  lemma MarksAgree(line: string)
    requires !Silent(line)
    ensures B.MarkOf(line) == GroupMark(DirectiveOf(Trim(line))) <==> InFull(line)
  {
    var t := Trim(line);
    TrimIsTight(line);
    BracketWords();
    EndIsRead(t);
    if "group-begin " <= t {
      BeginIsRead(t);
    }
  }

  lemma SilentMarksNothing(line: string)
    requires Silent(line)
    ensures B.MarkOf(line) == Other
  {
    assert "group-begin "[0] == 'g' && "group-end"[0] == 'g';
  }

  /** Two sequences of the same height that stay above the same depths. */
  ghost predicate Alike<T, U>(w: seq<T>, mark: T -> Mark, v: seq<U>, kind: U -> Mark, depth: int) {
    Height(w, mark) == Height(v, kind) && (StaysAbove(w, mark, depth) <==> StaysAbove(v, kind, depth))
  }

  lemma BothStep<T, U>(x: T, w: seq<T>, mark: T -> Mark, y: U, v: seq<U>, kind: U -> Mark, depth: int)
    requires mark(x) == kind(y) && Alike(w, mark, v, kind, depth + Step(mark(x)))
    ensures Alike([x] + w, mark, [y] + v, kind, depth)
  {
    StaysAboveStep(x, w, mark, depth);
    StaysAboveStep(y, v, kind, depth);
    assert ([x] + w)[1..] == w && ([y] + v)[1..] == v;
  }

  lemma OtherStep<T, U>(x: T, w: seq<T>, mark: T -> Mark, v: seq<U>, kind: U -> Mark, depth: int)
    requires mark(x) == Other && Alike(w, mark, v, kind, depth)
    ensures Alike([x] + w, mark, v, kind, depth)
  {
    StaysAboveStep(x, w, mark, depth);
    assert ([x] + w)[1..] == w;
    if depth < 0 {
      BelowFails(v, kind, depth);
    }
  }

  lemma {:induction false} SameHeights(lines: seq<string>, depth: int)
    requires forall l :: l in lines ==> Silent(l) || InFull(l)
    ensures Alike(lines, B.MarkOf, Spoken(lines), GroupMark, depth)
  {
    if lines != [] {
      var line, rest := lines[0], lines[1..];
      assert line in lines && lines == [line] + rest;
      if Silent(line) {
        SilentMarksNothing(line);
        SameHeights(rest, depth);
        OtherStep(line, rest, B.MarkOf, Spoken(rest), GroupMark, depth);
        assert Spoken(lines) == Spoken(rest);
      } else {
        MarksAgree(line);
        SameHeights(rest, depth + Step(B.MarkOf(line)));
        BothStep(line, rest, B.MarkOf, DirectiveOf(Trim(line)), Spoken(rest), GroupMark, depth);
      }
    }
  }

  lemma BelowFails<T>(w: seq<T>, kind: T -> Mark, depth: int)
    requires depth < 0
    ensures !StaysAbove(w, kind, depth)
  {
    assert depth + Height(w[..0], kind) < 0;
  }

  /** A text of such lines passes the bracket check if and only if its groups are balanced for the
      parsers, so that what is proved of balanced groups holds of every text that was validated. */
  lemma ValidatedIsBalanced(lines: seq<string>)
    requires forall l :: l in lines ==> Rendered(l) && (Silent(l) || InFull(l))
    ensures B.BracketIssues(Lines(Unlines(lines))) == [] <==> Balanced(Directives(Unlines(lines)), GroupMark)
  {
    LinesOfUnlines(lines);
    DirectivesOfRendered(lines);
    B.NoIssuesIffBalanced(lines);
    SameHeights(lines, 0);
  }

  /** A begin line that names its group after a tab passes the check, and opens a group that nothing
      closes. */
  lemma TabbedBeginPasses(name: string)
    requires IsWord(name) && !EndsWith(name, '\\')
    ensures var text := "group-begin" + "\t" + name + "\n";
            B.BracketIssues(Lines(text)) == [] && !Balanced(Directives(text), GroupMark)
  {
    var line := "group-begin" + "\t" + name;
    TabbedLine(name);
    OneLine(line);
  }

  lemma OneLine(line: string)
    requires Rendered(line) && !Silent(line) && KeyOf(Trim(line)) == "group-begin" && B.MarkOf(line) == Other
    ensures B.BracketIssues(Lines(line + "\n")) == [] && !Balanced(Directives(line + "\n"), GroupMark)
  {
    var d, none: seq<string>, no: seq<Directive> := DirectiveOf(Trim(line)), [], [];
    assert [line][1..] == [] && Unlines([line]) == line + "\n" + "" == line + "\n";
    LinesOfUnlines([line]);
    DirectivesOfRendered([line]);
    assert Spoken([line]) == [d] + no == [d] && [line] + none == [line];
    HeightNext([d], 0, GroupMark);
    assert [d][..1] == [d] && [d][..0] == no && Height(no, GroupMark) == 0;
    B.NoIssuesIffBalanced([line]);
    OtherStep(line, none, B.MarkOf, none, B.MarkOf, 0);
    assert Height(none, B.MarkOf) == 0;
  }

  lemma TabbedLine(name: string)
    requires IsWord(name) && !EndsWith(name, '\\')
    ensures var line := "group-begin" + "\t" + name;
            Rendered(line) && !Silent(line) && KeyOf(Trim(line)) == "group-begin" && B.MarkOf(line) == Other
  {
    var line := "group-begin" + "\t" + name;
    BracketWords();
    assert name[|name| - 1] in name && line[|line| - 1] == name[|name| - 1] && IsSpace('\n') && IsSpace('\r');
    TrimOfTight(line);
    assert line == "group-begin" + ("\t" + name);
    WordLengthOf("group-begin", "\t" + name);
    assert line[11] == '\t' && "group-begin "[11] == ' ' && |line| > 11;
    assert "group-begin "[..11] == "group-begin";
  }
}
