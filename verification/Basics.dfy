/** Small definitions shared by the other modules. */
module Basics {

  datatype Option<+T> = None | Some(value: T)

  /** Go's `strings.HasPrefix` and Python's `str.startswith`. */
  predicate HasPrefix(s: string, prefix: string) {
    prefix <= s
  }

  /** The prefix order is what makes two database prefixes clash: one name can start with both. */
  lemma PrefixesOfOneString(s: string, p: string, q: string)
    requires HasPrefix(s, p) && HasPrefix(s, q)
    ensures HasPrefix(p, q) || HasPrefix(q, p)
  {
    if |p| <= |q| {
      assert q[..|p|] == s[..|p|] == p;
    } else {
      assert p[..|q|] == s[..|q|] == q;
    }
  }

  lemma AppendAssociates<T>(a: seq<T>, b: seq<T>, c: seq<T>)
    ensures a + (b + c) == (a + b) + c && a + b <= a + (b + c)
  {
  }

  lemma ConsAppend<T>(a: T, x: seq<T>, y: seq<T>)
    ensures ([a] + x) + y == [a] + (x + y)
  {
  }

  lemma AppendCons<T>(x: seq<T>, a: T, y: seq<T>)
    ensures (x + [a]) + y == x + ([a] + y)
  {
  }

  function Flatten<T>(lists: seq<seq<T>>): seq<T> {
    if lists == [] then [] else lists[0] + Flatten(lists[1..])
  }

  /** The elements of `xs` that satisfy `keep`, in order. */
  function Filter<T>(xs: seq<T>, keep: T -> bool): (r: seq<T>)
  {
    if xs == [] then [] else
    if keep(xs[0]) then [xs[0]] + Filter(xs[1..], keep) else Filter(xs[1..], keep)
  }

  lemma FilterAppend<T>(xs: seq<T>, ys: seq<T>, keep: T -> bool)
    ensures Filter(xs + ys, keep) == Filter(xs, keep) + Filter(ys, keep)
  {
    if xs == [] {
      assert xs + ys == ys;
    } else {
      assert (xs + ys)[1..] == xs[1..] + ys;
      FilterAppend(xs[1..], ys, keep);
    }
  }

  lemma FilterMember<T>(xs: seq<T>, keep: T -> bool, x: T)
    ensures x in Filter(xs, keep) <==> x in xs && keep(x)
  {
    if xs != [] {
      FilterMember(xs[1..], keep, x);
    }
  }
}
