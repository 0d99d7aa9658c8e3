/** What several of the models share. */
module Basics {

  newtype byte = x: int | 0 <= x < 256

  datatype Option<+T> = None | Some(value: T)

  /** Some element of a set. */
  ghost function Pick<T>(s: set<T>): (x: T)
    requires s != {}
    ensures x in s
  {
    var x :| x in s; x
  }

  lemma {:induction false} SubsetSize<T>(a: set<T>, b: set<T>)
    requires a <= b
    ensures |a| <= |b|
  {
    if x :| x in a { SubsetSize(a - {x}, b - {x}); }
  }

  lemma Assoc<T>(a: seq<T>, b: seq<T>, c: seq<T>)
    ensures (a + b) + c == a + (b + c)
  {
  }

  /** Cutting `[i, j)` out of a sequence leaves its head in front. */
  lemma ConsCut<T>(s: seq<T>, i: nat, j: nat)
    requires 1 <= i <= j <= |s|
    ensures [s[0]] + (s[1..][..i - 1] + s[1..][j - 1..]) == s[..i] + s[j..]
  {
    assert [s[0]] + s[1..][..i - 1] == s[..i];
    assert s[1..][j - 1..] == s[j..];
    Assoc([s[0]], s[1..][..i - 1], s[1..][j - 1..]);
  }

  /** And so does putting `x` in at `i`. */
  lemma ConsInsert<T>(s: seq<T>, x: T, i: nat)
    requires 1 <= i <= |s|
    ensures [s[0]] + (s[1..][..i - 1] + [x] + s[1..][i - 1..]) == s[..i] + [x] + s[i..]
  {
    assert [s[0]] + s[1..][..i - 1] == s[..i];
    assert s[1..][i - 1..] == s[i..];
    Assoc([s[0]], s[1..][..i - 1] + [x], s[1..][i - 1..]);
    Assoc([s[0]], s[1..][..i - 1], [x]);
  }
}
