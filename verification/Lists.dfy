/** Sequences without repetition, and taking one element out. */
module Lists {

  predicate NoDup<T(==)>(xs: seq<T>) {
    forall i, j :: 0 <= i < j < |xs| ==> xs[i] != xs[j]
  }

  function Without<T(==)>(xs: seq<T>, x: T): seq<T> {
    if xs == [] then [] else if xs[0] == x then xs[1..] else [xs[0]] + Without(xs[1..], x)
  }

  lemma {:induction false} WithoutAt<T>(xs: seq<T>, i: nat)
    requires NoDup(xs) && i < |xs|
    ensures Without(xs, xs[i]) == xs[..i] + xs[i + 1..]
  {
    if i > 0 {
      WithoutAt(xs[1..], i - 1);
      assert xs[1..][..i - 1] == xs[1..i] && xs[..i] == [xs[0]] + xs[1..i];
      assert xs[1..][i..] == xs[i + 1..];
    }
  }

  lemma CutNoDup<T>(xs: seq<T>, i: nat)
    requires NoDup(xs) && i < |xs|
    ensures NoDup(xs[..i] + xs[i + 1..])
  {
    var ws := xs[..i] + xs[i + 1..];
    assert forall j :: 0 <= j < |ws| ==> ws[j] == xs[if j < i then j else j + 1];
  }

  /** Where an element stands is the only place it stands. */
  lemma Distinct<T>(xs: seq<T>, i: int)
    requires NoDup(xs)
    ensures 0 <= i < |xs| ==> forall j :: 0 <= j < |xs| && j != i ==> xs[j] != xs[i]
  {
  }

  lemma {:induction false} WithoutFacts<T>(xs: seq<T>, x: T)
    requires NoDup(xs)
    ensures NoDup(Without(xs, x)) && (forall y :: y in Without(xs, x) <==> y in xs && y != x)
    ensures xs != [] && xs[0] == x ==> Without(xs, x) == xs[1..]
  {
    if xs != [] && xs[0] != x {
      assert NoDup(xs[1..]);
      WithoutFacts(xs[1..], x);
      forall i, j | 0 <= i < j < |Without(xs, x)| ensures Without(xs, x)[i] != Without(xs, x)[j] {
        assert Without(xs, x)[j] in Without(xs[1..], x);
      }
      forall y ensures y in Without(xs, x) <==> y in xs && y != x {
        assert xs == [xs[0]] + xs[1..];
      }
    } else if xs != [] {
      forall y ensures y in xs[1..] <==> y in xs && y != x {
        assert xs == [xs[0]] + xs[1..];
      }
    }
  }

  lemma WithoutElements<T>(xs: seq<T>, x: T)
    requires NoDup(xs) && x in xs
    ensures forall j :: 0 <= j < |Without(xs, x)| ==> Without(xs, x)[j] in xs && Without(xs, x)[j] != x
  {
    var i :| 0 <= i < |xs| && xs[i] == x;
    WithoutAt(xs, i);
    hide Without;
    forall j | 0 <= j < |Without(xs, x)| ensures Without(xs, x)[j] in xs && Without(xs, x)[j] != x {
      assert Without(xs, x)[j] == xs[if j < i then j else j + 1];
    }
  }

  lemma NoDupFront<T>(x: T, xs: seq<T>)
    requires NoDup(xs) && x !in xs
    ensures NoDup([x] + xs)
  {
  }

  lemma WithoutMiddle<T>(a: seq<T>, x: T, b: seq<T>)
    ensures NoDup(a + ([x] + b)) ==> Without(a + ([x] + b), x) == a + b
    ensures a + ([x] + b) == (a + [x]) + b
  {
    var xs := a + ([x] + b);
    assert xs[|a|] == x && xs[..|a|] == a && xs[|a| + 1..] == b;
    if NoDup(xs) { WithoutAt(xs, |a|); }
  }

  /** The elements of `xs` not among `due`, in order. */
  function Kept<T(==)>(xs: seq<T>, due: set<T>): seq<T> {
    if xs == [] then []
    else
      var last := xs[|xs| - 1];
      Kept(xs[..|xs| - 1], due) + if last in due then [] else [last]
  }

  /** The elements of `xs` among `due`, last first. */
  function Taken<T(==)>(xs: seq<T>, due: set<T>): seq<T> {
    if xs == [] then []
    else
      var last := xs[|xs| - 1];
      (if last in due then [last] else []) + Taken(xs[..|xs| - 1], due)
  }

  lemma {:induction false} KeptTaken<T>(xs: seq<T>, due: set<T>)
    ensures forall j :: 0 <= j < |Kept(xs, due)| ==> Kept(xs, due)[j] in xs && Kept(xs, due)[j] !in due
    ensures forall j :: 0 <= j < |Taken(xs, due)| ==> Taken(xs, due)[j] in xs && Taken(xs, due)[j] in due
  {
    if xs != [] {
      KeptTaken(xs[..|xs| - 1], due);
      assert xs == xs[..|xs| - 1] + [xs[|xs| - 1]];
    }
  }

  lemma KeptNext<T>(xs: seq<T>, i: nat, due: set<T>)
    requires i < |xs|
    ensures Kept(xs[..i + 1], due) == Kept(xs[..i], due) + if xs[i] in due then [] else [xs[i]]
    ensures Taken(xs[..i + 1], due) == (if xs[i] in due then [xs[i]] else []) + Taken(xs[..i], due)
  {
    assert xs[..i + 1][..i] == xs[..i];
  }
}
