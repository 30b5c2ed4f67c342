/**
 * The list operations behind the multi-select widgets: `list.filter(v => v !== x)`
 * and "remove if included, else append".
 */
module Selection {

  /** `xs.filter(v => v !== x)`: every occurrence of `x` removed, the rest in order. */
  function Without(xs: seq<string>, x: string): (r: seq<string>)
    ensures x !in r
    ensures multiset(r) == multiset(xs)[x := 0]
    ensures |r| <= |xs|
  {
    if xs == [] then []
    else
      var rest := Without(xs[1..], x);
      assert xs == [xs[0]] + xs[1..];
      if xs[0] == x then rest else [xs[0]] + rest
  }

  /** Filtering distributes over concatenation, so the kept values stay in their order. */
  lemma {:induction false} WithoutAppend(a: seq<string>, b: seq<string>, x: string)
    ensures Without(a + b, x) == Without(a, x) + Without(b, x)
    decreases |a|
  {
    if a != [] {
      assert (a + b)[1..] == a[1..] + b;
      WithoutAppend(a[1..], b, x);
    } else {
      assert a + b == b;
    }
  }

  /** Filtering out a value that is not there changes nothing. */
  lemma {:induction false} WithoutAbsent(xs: seq<string>, x: string)
    requires x !in xs
    ensures Without(xs, x) == xs
    decreases |xs|
  {
    if xs != [] {
      WithoutAbsent(xs[1..], x);
      assert xs == [xs[0]] + xs[1..];
    }
  }

  /** Filtering twice is filtering once. */
  lemma WithoutIdempotent(xs: seq<string>, x: string)
    ensures Without(Without(xs, x), x) == Without(xs, x)
  {
    WithoutAbsent(Without(xs, x), x);
  }

  /** `xs.includes(x) ? xs.filter(v => v !== x) : [...xs, x]`. */
  function Toggle(xs: seq<string>, x: string): (r: seq<string>)
    ensures x in xs ==> x !in r && multiset(r) == multiset(xs)[x := 0]
    ensures x !in xs ==> r == xs + [x]
  {
    if x in xs then Without(xs, x) else xs + [x]
  }

  /** Toggling an absent value on and off again restores the list. */
  lemma ToggleTwiceAbsent(xs: seq<string>, x: string)
    requires x !in xs
    ensures Toggle(Toggle(xs, x), x) == xs
  {
    WithoutAppend(xs, [x], x);
    WithoutAbsent(xs, x);
    assert Without([x], x) == [];
  }

  /** Toggling a present value off and on again moves its one occurrence to the end. */
  lemma ToggleTwicePresent(xs: seq<string>, x: string)
    requires x in xs
    ensures Toggle(Toggle(xs, x), x) == Without(xs, x) + [x]
  {
  }
}
