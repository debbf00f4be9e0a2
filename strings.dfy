/** Sequence and string helpers shared by the tokenizer and the prompt builder:
    list concatenation, Python's `sep.join(parts)` and the clamp of a slice bound. */
module Strings {

  /** Concatenation of a list of sequences, in order (Python's `"".join` on strings). */
  function Flatten<T>(xss: seq<seq<T>>): seq<T>
  {
    if xss == [] then [] else xss[0] + Flatten(xss[1..])
  }

  /** A non-empty list is its head followed by its tail. */
  lemma HeadTail<T>(xs: seq<T>)
    requires xs != []
    ensures [xs[0]] + xs[1..] == xs
  {
  }

  /** The head and the tail of a list built from them. */
  lemma ConsParts<T>(x: T, xs: seq<T>)
    ensures ([x] + xs)[..1] == [x] && ([x] + xs)[1..] == xs
  {
  }

  /** Two elements between two lists, regrouped from the right. */
  lemma PairBetween<T>(a: seq<T>, x: T, y: T, b: seq<T>)
    ensures a + [x, y] + b == a + ([x] + ([y] + b))
  {
  }

  /** Two single-space separators around nothing are two spaces. */
  lemma SpacesAroundEmpty(a: string, b: string)
    ensures a + " " + "" + " " + b == a + [' ', ' '] + b
  {
    assert " " + "" + " " == [' ', ' '];
  }

  /** Moving the head of the unprocessed part onto the processed part keeps
      their concatenation. */
  lemma MoveHead<T>(done: seq<T>, todo: seq<T>, x: T, rest: seq<T>)
    requires todo == [x] + rest
    ensures (done + [x]) + rest == done + todo
  {
  }

  /** Appending nothing changes nothing. */
  lemma AppendEmpty<T>(xs: seq<T>)
    ensures xs + [] == xs
  {
  }

  lemma {:induction false} FlattenCons<T>(x: seq<T>, rest: seq<seq<T>>)
    ensures Flatten([x] + rest) == x + Flatten(rest)
  {
    assert ([x] + rest)[1..] == rest;
  }

  /** Groups of at most `k` elements each flatten to at most `k` per group. */
  lemma {:induction false} FlattenBounded<T>(xss: seq<seq<T>>, k: nat)
    requires forall i :: 0 <= i < |xss| ==> |xss[i]| <= k
    ensures |Flatten(xss)| <= k * |xss|
  {
    if xss != [] {
      FlattenBounded(xss[1..], k);
      assert k * |xss| == k + k * (|xss| - 1);
    }
  }

  /** Python's `sep.join(parts)`: the parts in order with `sep` between neighbours. */
  function Join(sep: string, parts: seq<string>): string
  {
    if parts == [] then ""
    else if |parts| == 1 then parts[0]
    else parts[0] + sep + Join(sep, parts[1..])
  }

  /** A list of two or more parts joins to its first part, the separator and the
      rest joined. */
  lemma {:induction false} JoinCons(sep: string, parts: seq<string>)
    requires |parts| > 1
    ensures Join(sep, parts) == parts[0] + (sep + Join(sep, parts[1..]))
    ensures sep + Join(sep, parts) == sep + parts[0] + (sep + Join(sep, parts[1..]))
  {
    var rest := Join(sep, parts[1..]);
    assert Join(sep, parts) == parts[0] + sep + rest;
    assert parts[0] + sep + rest == parts[0] + (sep + rest);
    assert sep + (parts[0] + (sep + rest)) == sep + parts[0] + (sep + rest);
  }

  /** Joining two non-empty lists and gluing the results with the separator
      is joining their concatenation. */
  lemma {:induction false} JoinAppend(sep: string, a: seq<string>, b: seq<string>)
    requires a != [] && b != []
    ensures Join(sep, a) + sep + Join(sep, b) == Join(sep, a + b)
  {
    if |a| == 1 {
      assert (a + b)[1..] == b;
    } else {
      assert (a + b)[1..] == a[1..] + b;
      JoinAppend(sep, a[1..], b);
    }
  }

  /** Putting a non-empty prefix of `s` in front of a cut of the rest of `s` into
      non-empty pieces cuts all of `s` into non-empty pieces. */
  lemma {:induction false} ConsPieces<T>(s: seq<T>, n: nat, rest: seq<seq<T>>)
    requires 1 <= n <= |s|
    requires Flatten(rest) == s[n..] && |rest| <= |s| - n
    requires forall k :: 0 <= k < |rest| ==> rest[k] != []
    ensures Flatten([s[..n]] + rest) == s
    ensures |[s[..n]] + rest| <= |s|
    ensures forall k :: 0 <= k < |[s[..n]] + rest| ==> ([s[..n]] + rest)[k] != []
  {
    FlattenCons(s[..n], rest);
    assert s[..n] + s[n..] == s;
  }

  /** `[f(x) for x in xs]`. */
  function MapEach<T, U>(f: T -> U, xs: seq<T>): (ys: seq<U>)
    ensures |ys| == |xs|
  {
    if xs == [] then [] else [f(xs[0])] + MapEach(f, xs[1..])
  }

  /** The `k`-th mapped element is `f` of the `k`-th element. */
  lemma {:induction false} MapEachAt<T, U>(f: T -> U, xs: seq<T>, k: nat)
    requires k < |xs|
    ensures MapEach(f, xs)[k] == f(xs[k])
  {
    if k > 0 {
      MapEachAt(f, xs[1..], k - 1);
    }
  }

  /** Mapping over a list with a known head. */
  lemma {:induction false} MapEachCons<T, U>(f: T -> U, x: T, rest: seq<T>)
    ensures MapEach(f, [x] + rest) == [f(x)] + MapEach(f, rest)
  {
    assert ([x] + rest)[1..] == rest;
  }

  /** Each group joined on its own, in order. */
  function JoinEach(sep: string, groups: seq<seq<string>>): (r: seq<string>)
    ensures |r| == |groups|
  {
    if groups == [] then [] else [Join(sep, groups[0])] + JoinEach(sep, groups[1..])
  }

  /** Joining already-joined non-empty groups is joining the flattened groups. */
  lemma {:induction false} JoinFlatten(sep: string, groups: seq<seq<string>>)
    requires groups != []
    requires forall i :: 0 <= i < |groups| ==> groups[i] != []
    ensures Join(sep, JoinEach(sep, groups)) == Join(sep, Flatten(groups))
  {
    if |groups| == 1 {
      assert Flatten(groups) == groups[0] + Flatten(groups[1..]);
      assert groups[0] + [] == groups[0];
    } else {
      var rest := groups[1..];
      JoinFlatten(sep, rest);
      assert Flatten(groups) == groups[0] + Flatten(rest);
      FlattenNonEmpty(rest);
      JoinAppend(sep, groups[0], Flatten(rest));
    }
  }

  lemma {:induction false} FlattenNonEmpty(groups: seq<seq<string>>)
    requires groups != []
    requires forall i :: 0 <= i < |groups| ==> groups[i] != []
    ensures Flatten(groups) != []
  {
    assert Flatten(groups) == groups[0] + Flatten(groups[1..]);
  }

  /** The bound Python applies to `xs[:n]` for `n >= 0`. */
  function Min(a: int, b: int): int
  {
    if a <= b then a else b
  }
}
