/** Validation of a configuration before it is saved, with the bracket check of its rules text. */
module Brackets {
  import opened Text
  import opened ConfigLines
  import opened Nesting
  import opened UpstreamFile
  import opened UpstreamOptions

  datatype Issue = NoUpstream | NoResponseMode | ExtraEnd(line: nat) | Unclosed

  const GROUP_BEGIN := "group-begin "
  const GROUP_END := "group-end"

  function MarkOf(line: string): Mark {
    if GROUP_BEGIN <= Trim(line) then Open else if Trim(line) == GROUP_END then Close else Other
  }

  function Level(w: seq<string>): int {
    Height(w, MarkOf)
  }

  /** The lowest level any prefix reaches. */
  function Low(w: seq<string>): int {
    if w == [] then 0
    else
      var low := Low(w[..|w| - 1]);
      if Level(w) < low then Level(w) else low
  }

  function ExtraEnds(w: seq<string>): seq<Issue> {
    if w == [] then []
    else
      var init := w[..|w| - 1];
      ExtraEnds(init) + if MarkOf(w[|w| - 1]) == Close && Level(init) == Low(init) then [ExtraEnd(|w|)] else []
  }

  function BracketIssues(w: seq<string>): seq<Issue> {
    ExtraEnds(w) + if Level(w) > Low(w) then [Unclosed] else []
  }

  /** A begin line and the end line that closes it, with a balanced text between them. */
  ghost predicate Pairs(w: seq<string>, i: int, j: int) {
    0 <= i < j < |w| && MarkOf(w[i]) == Open && MarkOf(w[j]) == Close && Balanced(w[i + 1..j], MarkOf)
  }

  ghost predicate Matched(w: seq<string>, j: int) {
    exists i :: Pairs(w, i, j)
  }

  ghost predicate Answered(w: seq<string>, i: int) {
    exists j :: Pairs(w, i, j)
  }

  // ---------- Levels ----------

  lemma LevelNext(w: seq<string>, k: nat)
    requires k < |w|
    ensures Level(w[..k + 1]) == Level(w[..k]) + Step(MarkOf(w[k]))
    ensures Low(w[..k + 1]) == if Level(w[..k + 1]) < Low(w[..k]) then Level(w[..k + 1]) else Low(w[..k])
  {
    HeightNext(w, k, MarkOf);
    assert w[..k + 1][..k] == w[..k];
  }

  lemma {:induction false} LowIsLow(w: seq<string>, j: nat)
    requires j <= |w|
    ensures Low(w[..j]) <= Level(w[..j]) && Low(w[..j]) <= 0
    ensures forall k :: 0 <= k <= j ==> Low(w[..j]) <= Level(w[..k])
  {
    if j > 0 {
      LowIsLow(w, j - 1);
      LevelNext(w, j - 1);
    }
  }

  /** The last place where the level rises to a given height for good. */
  lemma {:induction false} LastRise(w: seq<string>, j: nat, h: int) returns (k: nat)
    requires j <= |w| && Low(w[..j]) < h <= Level(w[..j])
    ensures k < j && Level(w[..k]) == h - 1 && MarkOf(w[k]) == Open
    ensures forall m :: k < m <= j ==> Level(w[..m]) >= h
  {
    assert w[..0] == [];
    LevelNext(w, j - 1);
    if Level(w[..j - 1]) >= h {
      k := LastRise(w, j - 1, h);
    } else {
      k := j - 1;
    }
  }

  lemma SliceLevel(w: seq<string>, i: nat, j: nat, m: nat)
    requires i <= j <= |w| && m <= j - i
    ensures Height(w[i..j][..m], MarkOf) == Level(w[..i + m]) - Level(w[..i])
  {
    assert w[..i + m] == w[..i] + w[i..j][..m];
    HeightAppend(w[..i], w[i..j][..m], MarkOf);
  }

  /** A balanced slice starts and ends at the same level and never goes below it. */
  lemma BalancedSlice(w: seq<string>, i: nat, j: nat)
    requires i <= j <= |w|
    ensures Balanced(w[i..j], MarkOf) <==>
            Level(w[..j]) == Level(w[..i]) && forall m :: i <= m <= j ==> Level(w[..m]) >= Level(w[..i])
  {
    var s := w[i..j];
    assert s[..j - i] == s;
    SliceLevel(w, i, j, j - i);
    if Balanced(s, MarkOf) {
      forall m | i <= m <= j ensures Level(w[..m]) >= Level(w[..i]) {
        SliceLevel(w, i, j, m - i);
        assert 0 + Height(s[..m - i], MarkOf) >= 0;
      }
    }
    if forall m :: i <= m <= j ==> Level(w[..m]) >= Level(w[..i]) {
      forall k | 0 <= k <= |s| ensures 0 + Height(s[..k], MarkOf) >= 0 {
        SliceLevel(w, i, j, k);
        assert Level(w[..i + k]) >= Level(w[..i]);
      }
    }
  }

  // ---------- What the errors mean ----------

  lemma PairReturns(w: seq<string>, i: nat, j: nat)
    requires Pairs(w, i, j)
    ensures Level(w[..j + 1]) == Level(w[..i])
  {
    LevelNext(w, i);
    BalancedSlice(w, i + 1, j);
    LevelNext(w, j);
  }

  lemma PairAt(w: seq<string>, i: nat, j: nat)
    requires i < j < |w| && MarkOf(w[i]) == Open && MarkOf(w[j]) == Close && Level(w[..j]) == Level(w[..i]) + 1
    requires forall m :: i < m <= j ==> Level(w[..m]) > Level(w[..i])
    ensures Pairs(w, i, j)
  {
    LevelNext(w, i);
    BalancedSlice(w, i + 1, j);
  }

  lemma EndIsMatched(w: seq<string>, j: nat)
    requires j < |w| && MarkOf(w[j]) == Close
    ensures Matched(w, j) <==> Level(w[..j]) > Low(w[..j])
  {
    LowIsLow(w, j);
    if Level(w[..j]) > Low(w[..j]) {
      var k := LastRise(w, j, Level(w[..j]));
      PairAt(w, k, j);
    }
    if Matched(w, j) {
      var i :| Pairs(w, i, j);
      LevelNext(w, i);
      BalancedSlice(w, i + 1, j);
    }
  }

  lemma BeginsAreAnswered(w: seq<string>)
    ensures Level(w) > Low(w) <==> exists i :: 0 <= i < |w| && MarkOf(w[i]) == Open && !Answered(w, i)
  {
    assert w[..|w|] == w;
    LowIsLow(w, |w|);
    if Level(w) > Low(w) {
      var k := LastRise(w, |w|, Level(w));
      LevelNext(w, k);
      forall j ensures !Pairs(w, k, j) {
        if Pairs(w, k, j) {
          PairReturns(w, k, j);
        }
      }
    }
    if exists i :: 0 <= i < |w| && MarkOf(w[i]) == Open && !Answered(w, i) {
      var i :| 0 <= i < |w| && MarkOf(w[i]) == Open && !Answered(w, i);
      LevelNext(w, i);
      StaysOpen(w, i, |w|);
    }
  }

  /** An unanswered begin keeps the level above its own ever after. */
  lemma {:induction false} StaysOpen(w: seq<string>, i: nat, n: nat)
    requires i < n <= |w| && MarkOf(w[i]) == Open && !Answered(w, i)
    ensures forall m :: i < m <= n ==> Level(w[..m]) > Level(w[..i])
  {
    LevelNext(w, i);
    if n > i + 1 {
      StaysOpen(w, i, n - 1);
      LevelNext(w, n - 1);
      if Level(w[..n]) <= Level(w[..i]) {
        PairAt(w, i, n - 1);
      }
    }
  }

  ghost predicate Unmatched(w: seq<string>, n: nat) {
    0 < n <= |w| && MarkOf(w[n - 1]) == Close && !Matched(w, n - 1)
  }

  ghost predicate Reported(w: seq<string>, j: nat, n: nat)
    requires j <= |w|
  {
    ExtraEnd(n) in ExtraEnds(w[..j])
  }

  lemma ReportedNext(w: seq<string>, j: nat, n: nat)
    requires j < |w|
    ensures Reported(w, j + 1, n) <==> Reported(w, j, n) || (n == j + 1 && Unmatched(w, n))
  {
    ExtraEndsNext(w, j);
    LowIsLow(w, j);
    if MarkOf(w[j]) == Close {
      EndIsMatched(w, j);
    }
  }

  lemma {:induction false} ReportedIsUnmatched(w: seq<string>, j: nat, n: nat)
    requires j <= |w|
    ensures Reported(w, j, n) <==> n <= j && Unmatched(w, n)
  {
    if j > 0 {
      ReportedIsUnmatched(w, j - 1, n);
      ReportedNext(w, j - 1, n);
    }
  }

  /** Line numbers that only increase, up to a bound. */
  predicate Increasing(issues: seq<Issue>, bound: nat) {
    && (forall i :: 0 <= i < |issues| ==> issues[i].ExtraEnd? && issues[i].line <= bound)
    && (forall i, j :: 0 <= i < j < |issues| && issues[i].ExtraEnd? && issues[j].ExtraEnd? ==>
          issues[i].line < issues[j].line)
  }

  lemma {:induction false} ExtraEndsIncrease(w: seq<string>, j: nat)
    requires j <= |w|
    ensures Increasing(ExtraEnds(w[..j]), j)
  {
    if j > 0 {
      ExtraEndsIncrease(w, j - 1);
      ExtraEndsNext(w, j - 1);
    }
  }

  /** The extra-end errors carry increasing line numbers, one for each end line that no begin line
      matches; the unclosed error appears exactly when some begin line is never answered. */
  lemma BracketErrorsMean(w: seq<string>)
    ensures Increasing(ExtraEnds(w), |w|)
    ensures forall n: nat :: ExtraEnd(n) in BracketIssues(w) <==> Unmatched(w, n)
    ensures Unclosed in BracketIssues(w) <==> exists i :: 0 <= i < |w| && MarkOf(w[i]) == Open && !Answered(w, i)
  {
    assert w[..|w|] == w;
    ExtraEndsIncrease(w, |w|);
    forall n: nat ensures ExtraEnd(n) in ExtraEnds(w) <==> Unmatched(w, n) {
      ReportedIsUnmatched(w, |w|, n);
      assert Reported(w, |w|, n) <==> ExtraEnd(n) in ExtraEnds(w);
    }
    BeginsAreAnswered(w);
  }

  lemma {:induction false} NoExtraEnds(w: seq<string>, j: nat)
    requires j <= |w|
    ensures ExtraEnds(w[..j]) == [] <==> Low(w[..j]) == 0
    ensures Low(w[..j]) == 0 <==> forall k :: 0 <= k <= j ==> Level(w[..k]) >= 0
  {
    assert w[..0] == [];
    LowIsLow(w, j);
    if j > 0 {
      NoExtraEnds(w, j - 1);
      LevelNext(w, j - 1);
      assert w[..j][..j - 1] == w[..j - 1];
      LowIsLow(w, j - 1);
      if Low(w[..j]) < 0 {
        if Low(w[..j - 1]) == 0 {
          assert Level(w[..j]) < 0;
        }
      }
    }
  }

  lemma NoIssuesIffBalanced(w: seq<string>)
    ensures BracketIssues(w) == [] <==> Balanced(w, MarkOf)
  {
    assert w[..|w|] == w;
    NoExtraEnds(w, |w|);
    LowIsLow(w, |w|);
    if StaysAbove(w, MarkOf, 0) {
      forall k | 0 <= k <= |w| ensures Level(w[..k]) >= 0 {
        assert 0 + Height(w[..k], MarkOf) >= 0;
      }
    }
    if forall k :: 0 <= k <= |w| ==> Level(w[..k]) >= 0 {
      forall k | 0 <= k <= |w| ensures 0 + Height(w[..k], MarkOf) >= 0 {
        assert Level(w[..k]) >= 0;
      }
    }
  }

  ghost predicate Spells(f: Forest<string>, w: seq<string>) {
    Proper(f, MarkOf) && Flat(f) == w
  }

  /** No bracket error means a balanced text, which is a flattened forest of groups. */
  lemma NoBracketErrorIffNested(w: seq<string>)
    ensures BracketIssues(w) == [] <==> exists f :: Spells(f, w)
  {
    NoIssuesIffBalanced(w);
    if Balanced(w, MarkOf) {
      var f := ForestOf(w, MarkOf);
      assert Spells(f, w);
    }
    if exists f :: Spells(f, w) {
      var f :| Spells(f, w);
      ForestIsBalanced(f, MarkOf);
    }
  }

  // ---------- Validation ----------

  function AllBlank(us: seq<Upstream>): bool {
    us == [] || (Trim(us[0].value) == "" && AllBlank(us[1..]))
  }

  lemma {:induction false} AllBlankMeans(us: seq<Upstream>)
    ensures AllBlank(us) <==> forall u :: u in us ==> Blank(u.value)
  {
    if us != [] {
      BlankTrims(us[0].value);
      AllBlankMeans(us[1..]);
      assert us == [us[0]] + us[1..];
    }
  }

  function ConfigIssues(cfg: BeginnerConfig): seq<Issue> {
    (if AllBlank(cfg.upstreams) then [NoUpstream] else []) +
    (if Trim(cfg.responseMode) == "" then [NoResponseMode] else [])
  }

  lemma ExtraEndsNext(w: seq<string>, k: nat)
    requires k < |w|
    ensures ExtraEnds(w[..k + 1]) == ExtraEnds(w[..k]) +
            if MarkOf(w[k]) == Close && Level(w[..k]) == Low(w[..k]) then [ExtraEnd(k + 1)] else []
  {
    assert w[..k + 1][..k] == w[..k];
  }

  /** The line loop that counts open groups. */
  method CheckBrackets(lines: seq<string>) returns (errors: seq<Issue>)
    ensures errors == BracketIssues(lines)
  {
    errors := [];
    var groupDepth := 0;
    assert lines[..0] == [];
    for i := 0 to |lines|
      invariant 0 <= groupDepth == Level(lines[..i]) - Low(lines[..i])
      invariant errors == ExtraEnds(lines[..i])
    {
      LevelNext(lines, i);
      ExtraEndsNext(lines, i);
      var mark := MarkOf(lines[i]);
      if mark == Open {
        groupDepth := groupDepth + 1;
      } else if mark == Close {
        groupDepth := groupDepth - 1;
      }
      if groupDepth < 0 {
        errors := errors + [ExtraEnd(i + 1)];
        groupDepth := 0;
      }
    }
    assert lines[..|lines|] == lines;
    if groupDepth > 0 {
      errors := errors + [Unclosed];
    }
  }

  /** A request may be saved if and only if some upstream has a value, the response mode is not blank,
      and the rules text spells a forest of groups. */
  ghost predicate MaySave(cfg: BeginnerConfig, w: seq<string>) {
    (exists u :: u in cfg.upstreams && !Blank(u.value)) && !Blank(cfg.responseMode) && exists f :: Spells(f, w)
  }

  lemma NoIssuesIffMaySave(cfg: BeginnerConfig, w: seq<string>)
    ensures ConfigIssues(cfg) + BracketIssues(w) == [] <==> MaySave(cfg, w)
    ensures NoUpstream in ConfigIssues(cfg) <==> forall u :: u in cfg.upstreams ==> Blank(u.value)
    ensures NoResponseMode in ConfigIssues(cfg) <==> Blank(cfg.responseMode)
  {
    AllBlankMeans(cfg.upstreams);
    BlankTrims(cfg.responseMode);
    NoBracketErrorIffNested(w);
  }

  method ValidateBeginnerConfig(cfg: BeginnerConfig, rulesText: string) returns (errors: seq<Issue>)
    ensures errors == ConfigIssues(cfg) + BracketIssues(Lines(rulesText))
    ensures errors == [] <==> MaySave(cfg, Lines(rulesText))
  {
    errors := [];
    if AllBlank(cfg.upstreams) {
      errors := errors + [NoUpstream];
    }
    if Trim(cfg.responseMode) == "" {
      errors := errors + [NoResponseMode];
    }
    var brackets := CheckBrackets(Lines(rulesText));
    errors := errors + brackets;
    NoIssuesIffMaySave(cfg, Lines(rulesText));
  }
}
