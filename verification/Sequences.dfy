/** Slices that the loops of the other modules need by name. */
module Sequences {

  lemma PrefixSnoc<T>(s: seq<T>, i: nat)
    requires i < |s|
    ensures s[..i + 1] == s[..i] + [s[i]]
  {
  }

  lemma PrefixAll<T>(s: seq<T>)
    ensures s[..|s|] == s && s[|s|..] == [] && s[0..] == s
  {
  }

  lemma DropSnoc<T>(s: seq<T>, x: T)
    ensures (s + [x])[..|s|] == s
  {
  }

  /** Popping the head of a rotated sequence. */
  lemma RotationTail<T>(s: seq<T>, j: nat)
    requires j < |s|
    ensures (s[j..] + s[..j])[1..] == s[j + 1..] + s[..j]
  {
    assert s[j..] == [s[j]] + s[j + 1..];
    assert s[j..] + s[..j] == [s[j]] + (s[j + 1..] + s[..j]);
  }

  lemma PrefixOfPrefix<T>(s: seq<T>, i: nat, j: nat)
    requires i <= j <= |s|
    ensures s[..j][..i] == s[..i]
  {
  }

  lemma AppendNothing<T>(s: seq<T>)
    ensures s + [] == s && [] + s == s
  {
  }

  lemma AppendAssociative<T>(a: seq<T>, b: seq<T>, c: seq<T>)
    ensures (a + b) + c == a + (b + c)
  {
  }

  lemma DistinctCons<T>(x: T, s: seq<T>)
    requires x !in s && forall i, j | 0 <= i < j < |s| :: s[i] != s[j]
    ensures forall i, j | 0 <= i < j < |[x] + s| :: ([x] + s)[i] != ([x] + s)[j]
  {
  }

  lemma ConsTail<T>(x: T, s: seq<T>)
    ensures ([x] + s)[1..] == s
  {
  }

  lemma JoinSlices<T>(s: seq<T>, i: nat, j: nat)
    requires i <= j <= |s|
    ensures s[..i] + s[i..j] == s[..j]
  {
  }

  /** Moving the head of a rotated sequence behind it. */
  lemma RotateOne<T>(s: seq<T>, i: nat)
    requires i < |s|
    ensures var r := s[i..] + s[..i]; r[0] == s[i] && r[1..] + [r[0]] == s[i + 1..] + s[..i + 1]
  {
    RotationTail(s, i);
    PrefixSnoc(s, i);
    AppendAssociative(s[i + 1..], s[..i], [s[i]]);
  }

  lemma SplitAt<T>(s: seq<T>, i: nat)
    requires i <= |s|
    ensures s[..i] + s[i..] == s
  {
  }
}
