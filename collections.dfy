/** The optional value used for "null" results. */
module Options {
  datatype Option<+T> = None | Some(value: T)
}

/**
 * The list operations of Mono.Cecil's Collection<T> that the weaver relies on:
 * IndexOf (first element equal to the item), Insert at an index, and Remove,
 * which removes the first equal element and reports whether there was one.
 */
module Collections {

  /** Index of the first occurrence of `x` in `s`. */
  function IndexOf<T(==)>(s: seq<T>, x: T): (r: nat)
    requires x in s
    ensures r < |s| && s[r] == x
  {
    if s[0] == x then 0 else 1 + IndexOf(s[1..], x)
  }

  /** IndexOf finds the first occurrence: nothing before it equals `x`. */
  lemma {:induction false} IndexOfFirst<T>(s: seq<T>, x: T)
    requires x in s
    ensures x !in s[..IndexOf(s, x)]
  {
    if s[0] != x {
      IndexOfFirst(s[1..], x);
      var r := IndexOf(s, x);
      assert s[..r] == [s[0]] + s[1..][..r - 1];
    }
  }

  /** `s` with `x` inserted so that it lands at position `i`. */
  function Insert<T>(s: seq<T>, i: nat, x: T): seq<T>
    requires i <= |s|
  {
    s[..i] + [x] + s[i..]
  }

  /** ILProcessor.InsertBefore on a list: `x` goes in where `target` is first found. */
  function InsertedBefore<T(==)>(s: seq<T>, target: T, x: T): (r: seq<T>)
    requires target in s
    ensures |r| == |s| + 1 && r[IndexOf(s, target) + 1] == target
  {
    Insert(s, IndexOf(s, target), x)
  }

  /** `s` without its element at position `i`. */
  function RemoveAt<T>(s: seq<T>, i: nat): seq<T>
    requires i < |s|
  {
    s[..i] + s[i + 1..]
  }

  /** Collection<T>.Remove: drops the first element equal to `x`, if any. */
  function Remove<T(==)>(s: seq<T>, x: T): seq<T>
  {
    if x in s then RemoveAt(s, IndexOf(s, x)) else s
  }

  /** Searching past a prefix that does not hold `x` shifts the index by the prefix length. */
  lemma {:induction false} IndexOfPastPrefix<T>(p: seq<T>, s: seq<T>, x: T)
    requires x !in p && x in s
    ensures IndexOf(p + s, x) == |p| + IndexOf(s, x)
  {
    if p != [] {
      assert (p + s)[0] == p[0] != x;
      assert (p + s)[1..] == p[1..] + s;
      assert x !in p[1..] by { assert p == [p[0]] + p[1..]; }
      IndexOfPastPrefix(p[1..], s, x);
      assert IndexOf(p + s, x) == 1 + IndexOf((p + s)[1..], x);
    } else {
      assert p + s == s;
    }
  }

  /** Inserting before an anchor that lies past a prefix leaves the prefix alone. */
  lemma InsertBeforePastPrefix<T>(p: seq<T>, s: seq<T>, x: T, y: T)
    requires x !in p && x in s
    ensures InsertedBefore(p + s, x, y) == p + s[..IndexOf(s, x)] + [y] + s[IndexOf(s, x)..]
  {
    IndexOfPastPrefix(p, s, x);
    var i := IndexOf(s, x);
    var ps := p + s;
    assert ps[..|p| + i] == p + s[..i];
    assert ps[|p| + i..] == s[i..];
  }

  /** Inserting before an anchor that heads the rest of the list, past a prefix. */
  lemma InsertBeforeRestHead<T>(p: seq<T>, rest: seq<T>, x: T, y: T)
    requires |rest| > 0 && rest[0] == x && x !in p
    ensures InsertedBefore(p + rest, x, y) == p + [y] + rest
  {
    InsertBeforePastPrefix(p, rest, x, y);
    assert IndexOf(rest, x) == 0;
  }

  /** Two insertions before the same anchor land in order, in front of it. */
  lemma InsertPairBefore<T>(s: seq<T>, target: T, x: T, y: T)
    requires target in s && x != target
    ensures InsertedBefore(InsertedBefore(s, target, x), target, y)
            == s[..IndexOf(s, target)] + [x, y] + s[IndexOf(s, target)..]
  {
    var i := IndexOf(s, target);
    IndexOfFirst(s, target);
    var p := s[..i] + [x];
    assert InsertedBefore(s, target, x) == p + s[i..];
    assert target !in p;
    InsertBeforeRestHead(p, s[i..], target, y);
  }
}
