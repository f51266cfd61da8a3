/** Sequences without repetition, and what removing elements does to them. */
module Lists {

  ghost predicate Distinct<T>(xs: seq<T>) {
    forall i, j | 0 <= i < j < |xs| :: xs[i] != xs[j]
  }

  /** Node number `i` of a linked list, or `end` past its end. */
  function NodeAt<T>(xs: seq<T>, i: nat, end: T): T {
    if i < |xs| then xs[i] else end
  }

  /** `xs` without the first occurrence of `x`. */
  function Remove<T(==)>(xs: seq<T>, x: T): seq<T> {
    if xs == [] then [] else if xs[0] == x then xs[1..] else [xs[0]] + Remove(xs[1..], x)
  }

  /** The elements that satisfy the set, in their order. */
  function Keep<T(==)>(xs: seq<T>, chosen: set<T>): seq<T> {
    if xs == [] then [] else (if xs[0] in chosen then [xs[0]] else []) + Keep(xs[1..], chosen)
  }

  lemma {:induction false} RemoveAt<T>(xs: seq<T>, k: nat)
    requires k < |xs| && Distinct(xs)
    ensures Remove(xs, xs[k]) == xs[..k] + xs[k + 1..]
  {
    if k > 0 {
      RemoveAt(xs[1..], k - 1);
      assert xs[1..][..k - 1] == xs[1..k] && xs[..k] == [xs[0]] + xs[1..k];
    }
  }

  /** What is left when element number `k` is taken out, element by element. */
  lemma TakeOut<T>(xs: seq<T>, k: nat)
    requires k < |xs| && Distinct(xs)
    ensures var r := xs[..k] + xs[k + 1..];
            && Distinct(r) && |r| == |xs| - 1
            && (forall i | 0 <= i < |r| :: r[i] == xs[if i < k then i else i + 1] && r[i] != xs[k])
            && (k > 0 ==> forall i | 0 <= i < |r| && r[i] == xs[k - 1] :: i == k - 1)
  {
    var r := xs[..k] + xs[k + 1..];
    assert forall i | 0 <= i < |r| :: r[i] == xs[if i < k then i else i + 1];
  }

  lemma {:induction false} RemoveAbsent<T>(xs: seq<T>, x: T)
    requires x !in xs
    ensures Remove(xs, x) == xs
  {
    if xs != [] { RemoveAbsent(xs[1..], x); }
  }

  /** Removing keeps the rest, its order and its distinctness. */
  lemma RemoveDistinct<T>(xs: seq<T>, x: T)
    requires Distinct(xs) && x in xs
    ensures Distinct(Remove(xs, x)) && |Remove(xs, x)| == |xs| - 1
    ensures forall y | y in Remove(xs, x) :: y in xs && y != x
    ensures forall y | y in xs && y != x :: y in Remove(xs, x)
  {
    hide Remove;
    var k :| 0 <= k < |xs| && xs[k] == x;
    RemoveAt(xs, k);
    TakeOut(xs, k);
    var r := Remove(xs, x);
    forall y | y in xs && y != x ensures y in r {
      var j :| 0 <= j < |xs| && xs[j] == y;
      assert y == r[if j < k then j else j - 1];
    }
  }

  lemma Associative<T>(xs: seq<T>, ys: seq<T>, zs: seq<T>)
    ensures xs + (ys + zs) == xs + ys + zs
  {
  }

  lemma KeepFirst<T>(x: T, xs: seq<T>, chosen: set<T>)
    ensures Keep([x] + xs, chosen) == (if x in chosen then [x] else []) + Keep(xs, chosen)
  {
    assert ([x] + xs)[1..] == xs;
  }

  lemma {:induction false} KeepAppend<T>(xs: seq<T>, ys: seq<T>, chosen: set<T>)
    ensures Keep(xs + ys, chosen) == Keep(xs, chosen) + Keep(ys, chosen)
  {
    if xs == [] {
      assert xs + ys == ys;
    } else {
      KeepAppend(xs[1..], ys, chosen);
      KeepFirst(xs[0], xs[1..] + ys, chosen);
      KeepFirst(xs[0], xs[1..], chosen);
      assert xs + ys == [xs[0]] + (xs[1..] + ys) && xs == [xs[0]] + xs[1..];
      Associative(if xs[0] in chosen then [xs[0]] else [], Keep(xs[1..], chosen), Keep(ys, chosen));
    }
  }

  lemma {:induction false} KeepMember<T>(xs: seq<T>, chosen: set<T>, x: T)
    ensures x in Keep(xs, chosen) <==> x in xs && x in chosen
  {
    if xs != [] {
      KeepMember(xs[1..], chosen, x);
      assert x in xs <==> x == xs[0] || x in xs[1..];
    }
  }

  /** Keeping one element more. */
  lemma KeepOneMore<T>(xs: seq<T>, i: nat, chosen: set<T>)
    requires i < |xs|
    ensures Keep(xs[..i + 1], chosen) == Keep(xs[..i], chosen) + if xs[i] in chosen then [xs[i]] else []
  {
    KeepAppend(xs[..i], [xs[i]], chosen);
    assert xs[..i + 1] == xs[..i] + [xs[i]];
  }

  /** One step of a sweep over `xs` that stands at `i`, when the element stays ... */
  lemma SweepStay<T>(xs: seq<T>, i: nat, stay: set<T>, go: set<T>)
    requires i < |xs| && xs[i] in stay && xs[i] !in go
    ensures Keep(xs[..i + 1], go) == Keep(xs[..i], go)
    ensures Keep(xs[..i], stay) + xs[i..] == Keep(xs[..i + 1], stay) + xs[i + 1..]
  {
    KeepOneMore(xs, i, stay);
    KeepOneMore(xs, i, go);
    assert xs[i..] == [xs[i]] + xs[i + 1..];
  }

  /** ... and when it goes. */
  lemma SweepGo<T>(xs: seq<T>, i: nat, stay: set<T>, go: set<T>, gone: seq<T>)
    requires i < |xs| && xs[i] !in stay && xs[i] in go
    requires Distinct(Keep(xs[..i], stay) + xs[i..])
    ensures gone + Keep(xs[..i], go) + [xs[i]] == gone + Keep(xs[..i + 1], go)
    ensures Remove(Keep(xs[..i], stay) + xs[i..], xs[i]) == Keep(xs[..i + 1], stay) + xs[i + 1..]
  {
    KeepOneMore(xs, i, stay);
    KeepOneMore(xs, i, go);
    RemoveAt(Keep(xs[..i], stay) + xs[i..], |Keep(xs[..i], stay)|);
  }

  /** Before the first step and after the last. */
  lemma SweepEnds<T>(xs: seq<T>, chosen: set<T>, gone: seq<T>)
    ensures Keep(xs[..0], chosen) + xs[0..] == xs && gone + Keep(xs[..0], chosen) == gone
    ensures xs[..|xs|] == xs && Keep(xs, chosen) + xs[|xs|..] == Keep(xs, chosen)
  {
  }

  ghost predicate EndsWith<T>(xs: seq<T>, end: seq<T>) {
    |xs| >= |end| && xs[|xs| - |end|..] == end
  }

  lemma EndsWithItself<T>(xs: seq<T>)
    ensures EndsWith(xs, xs)
  {
  }

  /** An element put before the others leaves the end where it was. */
  lemma LongerFront<T>(xs: seq<T>, was: seq<T>, end: seq<T>)
    requires |xs| == |was| + 1 && xs[1..] == was && EndsWith(was, end)
    ensures EndsWith(xs, end)
  {
    assert xs[|xs| - |end|..] == xs[1..][|was| - |end|..];
  }

  /** Taking the first remaining element. */
  lemma DrainStep<T>(xs: seq<T>, k: nat, gone: seq<T>)
    requires k < |xs|
    ensures gone + xs[..k] + [xs[k]] == gone + xs[..k + 1]
    ensures Remove(xs[k..], xs[k]) == xs[k + 1..]
  {
  }
}
