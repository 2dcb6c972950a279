/** Sequences of sequences: `pd.concat` and list flattening. */
module Seqs {

  /** The sequences one after another. */
  function Concat<T>(xss: seq<seq<T>>): seq<T>
  {
    if xss == [] then [] else Concat(xss[..|xss| - 1]) + xss[|xss| - 1]
  }

  lemma ConcatAppend<T>(xss: seq<seq<T>>, ys: seq<T>)
    ensures Concat(xss + [ys]) == Concat(xss) + ys
  {
    assert (xss + [ys])[..|xss|] == xss;
  }

  /** Sequences of one common length `m` concatenate to `|xss| * m`
      elements. */
  lemma {:induction false} ConcatUniform<T>(xss: seq<seq<T>>, m: nat)
    requires forall i | 0 <= i < |xss| :: |xss[i]| == m
    ensures |Concat(xss)| == |xss| * m
  {
    if xss != [] {
      var k := |xss| - 1;
      ConcatUniform(xss[..k], m);
      assert |Concat(xss)| == k * m + m;
    }
  }

  /** Singletons concatenate to the sequence of their elements. */
  lemma {:induction false} ConcatSingletons<T>(xss: seq<seq<T>>, ys: seq<T>)
    requires |xss| == |ys|
    requires forall i | 0 <= i < |xss| :: xss[i] == [ys[i]]
    ensures Concat(xss) == ys
  {
    if xss != [] {
      var k := |xss| - 1;
      ConcatSingletons(xss[..k], ys[..k]);
      assert ys == ys[..k] + [ys[k]];
    }
  }

  /** `g` applied to every element. */
  function MapOver<A, B>(xs: seq<A>, g: A -> B): (r: seq<B>)
    ensures |r| == |xs|
    ensures forall i | 0 <= i < |xs| :: r[i] == g(xs[i])
  {
    seq(|xs|, i requires 0 <= i < |xs| => g(xs[i]))
  }

  /** Mapping commutes with concatenation. */
  lemma {:induction false} MapConcat<A, B>(xss: seq<seq<A>>, g: A -> B)
    ensures MapOver(Concat(xss), g) == Concat(MapOver(xss, (xs: seq<A>) => MapOver(xs, g)))
  {
    if xss != [] {
      var k := |xss| - 1;
      var h := (xs: seq<A>) => MapOver(xs, g);
      MapConcat(xss[..k], g);
      assert MapOver(xss, h) == MapOver(xss[..k], h) + [h(xss[k])];
      assert MapOver(Concat(xss), g) == MapOver(Concat(xss[..k]), g) + MapOver(xss[k], g);
    }
  }

  /** Every element of a concatenation comes from one of the parts. */
  lemma {:induction false} ConcatMembers<T>(xss: seq<seq<T>>, x: T)
    requires x in Concat(xss)
    ensures exists j | 0 <= j < |xss| :: x in xss[j]
  {
    var k := |xss| - 1;
    if x in Concat(xss[..k]) {
      ConcatMembers(xss[..k], x);
      var j :| 0 <= j < k && x in xss[..k][j];
    } else {
      assert x in xss[k];
    }
  }

  /** Every element of every part is in the concatenation. */
  lemma {:induction false} ConcatContains<T>(xss: seq<seq<T>>, j: nat, x: T)
    requires j < |xss| && x in xss[j]
    ensures x in Concat(xss)
  {
    var k := |xss| - 1;
    if j < k {
      ConcatContains(xss[..k], j, x);
    }
  }
}
