/** Sequences with opening and closing items, and the forests they spell. */
module Nesting {
  import opened Text

  datatype Mark = Open | Close | Other

  datatype Forest<T> =
    | Nil
    | Leaf(item: T, rest: Forest<T>)
    | Node(head: T, body: Forest<T>, foot: T, rest: Forest<T>)

  function Flat<T>(f: Forest<T>): seq<T> {
    match f
    case Nil => []
    case Leaf(item, rest) => [item] + Flat(rest)
    case Node(head, body, foot, rest) => [head] + Flat(body) + ([foot] + Flat(rest))
  }

  /** Heads open, feet close, leaves do neither. */
  predicate Proper<T>(f: Forest<T>, kind: T -> Mark) {
    match f
    case Nil => true
    case Leaf(item, rest) => kind(item) == Other && Proper(rest, kind)
    case Node(head, body, foot, rest) =>
      kind(head) == Open && kind(foot) == Close && Proper(body, kind) && Proper(rest, kind)
  }

  function Step(mark: Mark): int {
    if mark == Open then 1 else if mark == Close then -1 else 0
  }

  /** Opening items minus closing items. */
  function Height<T>(w: seq<T>, kind: T -> Mark): int {
    if w == [] then 0 else Step(kind(w[0])) + Height(w[1..], kind)
  }

  ghost predicate Balanced<T>(w: seq<T>, kind: T -> Mark) {
    Height(w, kind) == 0 && StaysAbove(w, kind, 0)
  }

  /** No prefix closes more than it and the given depth have opened. */
  ghost predicate StaysAbove<T>(w: seq<T>, kind: T -> Mark, depth: int) {
    forall k :: 0 <= k <= |w| ==> depth + Height(w[..k], kind) >= 0
  }

  lemma {:induction false} HeightAppend<T>(a: seq<T>, b: seq<T>, kind: T -> Mark)
    ensures Height(a + b, kind) == Height(a, kind) + Height(b, kind)
  {
    if a == [] {
      assert a + b == b;
    } else {
      assert (a + b)[1..] == a[1..] + b;
      HeightAppend(a[1..], b, kind);
    }
  }

  lemma HeightNext<T>(w: seq<T>, k: nat, kind: T -> Mark)
    requires k < |w|
    ensures Height(w[..k + 1], kind) == Height(w[..k], kind) + Step(kind(w[k]))
  {
    assert w[..k + 1] == w[..k] + [w[k]];
    HeightAppend(w[..k], [w[k]], kind);
    assert Height([w[k]], kind) == Step(kind(w[k])) + Height([w[k]][1..], kind);
  }

  lemma StaysAboveStep<T>(x: T, w: seq<T>, kind: T -> Mark, depth: int)
    ensures StaysAbove([x] + w, kind, depth) <==> depth >= 0 && StaysAbove(w, kind, depth + Step(kind(x)))
  {
    var all := [x] + w;
    forall k | 0 <= k <= |w|
      ensures Height(all[..k + 1], kind) == Step(kind(x)) + Height(w[..k], kind)
    {
      assert all[..k + 1][1..] == w[..k];
    }
    assert Height(all[..0], kind) == 0;
    if StaysAbove(all, kind, depth) {
      forall k | 0 <= k <= |w| ensures depth + Step(kind(x)) + Height(w[..k], kind) >= 0 {
        assert Height(all[..k + 1], kind) == Step(kind(x)) + Height(w[..k], kind);
        assert depth + Height(all[..k + 1], kind) >= 0;
      }
    }
    if depth >= 0 && StaysAbove(w, kind, depth + Step(kind(x))) {
      forall k | 0 <= k <= |all| ensures depth + Height(all[..k], kind) >= 0 {
        if k > 0 {
          assert Height(all[..k - 1 + 1], kind) == Step(kind(x)) + Height(w[..k - 1], kind);
        }
      }
    }
  }

  // ---------- Balanced sequences are the flattened forests ----------

  /** Forests with a closing item after each but the last. */
  function FlatList<T>(fs: seq<Forest<T>>, feet: seq<T>): seq<T>
    requires |fs| == |feet| + 1
  {
    if feet == [] then Flat(fs[0]) else Flat(fs[0]) + ([feet[0]] + FlatList(fs[1..], feet[1..]))
  }

  ghost predicate AllProper<T>(fs: seq<Forest<T>>, feet: seq<T>, kind: T -> Mark) {
    (forall f :: f in fs ==> Proper(f, kind)) && forall x :: x in feet ==> kind(x) == Close
  }

  lemma FlatListAt<T>(fs: seq<Forest<T>>, feet: seq<T>, f: Forest<T>, x: seq<T>)
    requires |fs| == |feet| + 1 && Flat(f) == x + Flat(fs[0])
    ensures FlatList([f] + fs[1..], feet) == x + FlatList(fs, feet)
  {
    var gs := [f] + fs[1..];
    assert gs[1..] == fs[1..];
    if feet != [] {
      Reassociate(x, Flat(fs[0]), [feet[0]] + FlatList(fs[1..], feet[1..]));
    }
  }

  lemma {:induction false} DepthSplits<T>(w: seq<T>, depth: nat, kind: T -> Mark)
    returns (fs: seq<Forest<T>>, feet: seq<T>)
    requires StaysAbove(w, kind, depth) && depth + Height(w, kind) == 0
    ensures |fs| == depth + 1 && |feet| == depth && AllProper(fs, feet, kind) && FlatList(fs, feet) == w
    decreases w
  {
    if w == [] {
      fs, feet := [Nil], [];
    } else {
      var x, rest := w[0], w[1..];
      assert w == [x] + rest;
      StaysAboveStep(x, rest, kind, depth);
      assert rest[..0] == [] && depth + Step(kind(x)) + Height(rest[..0], kind) >= 0;
      var gs, ends := DepthSplits(rest, depth + Step(kind(x)), kind);
      if kind(x) == Open {
        fs, feet := [Node(x, gs[0], ends[0], gs[1])] + gs[2..], ends[1..];
        OpenJoins(x, gs, ends);
      } else if kind(x) == Close {
        fs, feet := [Nil] + gs, [x] + ends;
        assert fs[1..] == gs && feet[1..] == ends;
        assert [] + ([x] + FlatList(gs, ends)) == [x] + rest;
      } else {
        fs, feet := [Leaf(x, gs[0])] + gs[1..], ends;
        FlatListAt(gs, ends, Leaf(x, gs[0]), [x]);
      }
    }
  }

  lemma OpenJoins<T>(x: T, gs: seq<Forest<T>>, ends: seq<T>)
    requires |gs| == |ends| + 1 && ends != []
    ensures FlatList([Node(x, gs[0], ends[0], gs[1])] + gs[2..], ends[1..]) == [x] + FlatList(gs, ends)
  {
    var more := gs[1..];
    var body := [x] + Flat(gs[0]) + [ends[0]];
    assert more[1..] == gs[2..];
    Reassociate([x] + Flat(gs[0]), [ends[0]], Flat(gs[1]));
    FlatListAt(more, ends[1..], Node(x, gs[0], ends[0], gs[1]), body);
    Reassociate([x], Flat(gs[0]), [ends[0]] + FlatList(more, ends[1..]));
    Reassociate([x] + Flat(gs[0]), [ends[0]], FlatList(more, ends[1..]));
  }

  lemma {:induction false} ForestStaysAbove<T>(f: Forest<T>, rest: seq<T>, kind: T -> Mark, depth: nat)
    requires Proper(f, kind)
    ensures Height(Flat(f), kind) == 0
    ensures StaysAbove(Flat(f) + rest, kind, depth) <==> StaysAbove(rest, kind, depth)
    decreases f
  {
    match f
    case Nil =>
      assert Flat(f) + rest == rest;
    case Leaf(item, next) =>
      ForestStaysAbove(next, rest, kind, depth);
      Reassociate([item], Flat(next), rest);
      StaysAboveStep(item, Flat(next) + rest, kind, depth);
      HeightAppend([item], Flat(next), kind);
      assert [item][1..] == [];
    case Node(head, body, foot, next) =>
      var after := [foot] + (Flat(next) + rest);
      ForestStaysAbove(next, rest, kind, depth);
      ForestStaysAbove(body, after, kind, depth + 1);
      StaysAboveStep(head, Flat(body) + after, kind, depth);
      StaysAboveStep(foot, Flat(next) + rest, kind, depth + 1);
      Reassociate([head] + Flat(body), [foot] + Flat(next), rest);
      Reassociate([foot], Flat(next), rest);
      Reassociate([head], Flat(body), after);
      NodeHeight(head, body, foot, next, kind);
  }

  lemma NodeHeight<T>(head: T, body: Forest<T>, foot: T, next: Forest<T>, kind: T -> Mark)
    ensures Height(Flat(Node(head, body, foot, next)), kind) ==
            Step(kind(head)) + Height(Flat(body), kind) + Step(kind(foot)) + Height(Flat(next), kind)
  {
    HeightAppend([head] + Flat(body), [foot] + Flat(next), kind);
    HeightAppend([head], Flat(body), kind);
    HeightAppend([foot], Flat(next), kind);
    assert [head][1..] == [] && [foot][1..] == [];
  }

  /** A sequence is balanced exactly when it spells a forest. */
  lemma BalancedIsForest<T>(w: seq<T>, kind: T -> Mark)
    ensures Balanced(w, kind) <==> exists f: Forest<T> :: Proper(f, kind) && Flat(f) == w
  {
    if Balanced(w, kind) {
      var f := ForestOf(w, kind);
      assert Proper(f, kind) && Flat(f) == w;
    }
    if exists f: Forest<T> :: Proper(f, kind) && Flat(f) == w {
      var f: Forest<T> :| Proper(f, kind) && Flat(f) == w;
      ForestIsBalanced(f, kind);
    }
  }

  lemma ForestOf<T>(w: seq<T>, kind: T -> Mark) returns (f: Forest<T>)
    requires Balanced(w, kind)
    ensures Proper(f, kind) && Flat(f) == w
  {
    var fs, feet := DepthSplits(w, 0, kind);
    f := fs[0];
    assert f in fs;
  }

  lemma ForestIsBalanced<T>(f: Forest<T>, kind: T -> Mark)
    requires Proper(f, kind)
    ensures Balanced(Flat(f), kind)
  {
    ForestStaysAbove(f, [], kind, 0);
    assert Flat(f) + [] == Flat(f);
    var none: seq<T> := [];
    assert StaysAbove(none, kind, 0) by {
      forall k | 0 <= k <= |none| ensures Height(none[..k], kind) >= 0 {
        assert none[..k] == none;
      }
    }
  }
}
