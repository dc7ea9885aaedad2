/** The deployment target record the fleet scripts exchange as JSON: the
    registration script uploads it, the target discovery script writes a list
    of them, the deployment script and the group definitions read them. */
module Records {

  datatype ParameterSet = ParameterSet(
    groupId: string,
    groupName: string,
    thingArn: string,
    certificateArn: string)

  /** No element occurs twice. */
  predicate Distinct<T(==)>(xs: seq<T>)
  {
    forall i, j :: 0 <= i < j < |xs| ==> xs[i] != xs[j]
  }

  function GroupIds(records: seq<ParameterSet>): (ids: seq<string>)
    ensures |ids| == |records|
    ensures forall k :: 0 <= k < |records| ==> ids[k] == records[k].groupId
  {
    seq(|records|, k requires 0 <= k < |records| => records[k].groupId)
  }

  lemma DistinctAppend<T>(xs: seq<T>, x: T)
    requires Distinct(xs) && x !in xs
    ensures Distinct(xs + [x])
  {
  }

  lemma DistinctConcat<T>(a: seq<T>, b: seq<T>)
    requires Distinct(a) && Distinct(b)
    requires forall x :: x in a ==> x !in b
    ensures Distinct(a + b)
  {
    forall i, j | 0 <= i < j < |a + b| ensures (a + b)[i] != (a + b)[j] {
      if j >= |a| && i < |a| {
        assert (a + b)[i] in a;
        assert (a + b)[j] in b;
      }
    }
  }

  /** The elements of `xs` as a set. */
  function Elements<T>(xs: seq<T>): set<T>
  {
    set x | x in xs
  }

  /** A duplicate-free sequence has as many elements as its set. */
  lemma {:induction false} DistinctCardinality<T>(xs: seq<T>)
    requires Distinct(xs)
    ensures |Elements(xs)| == |xs|
  {
    if xs != [] {
      var n := |xs| - 1;
      assert Distinct(xs[..n]);
      DistinctCardinality(xs[..n]);
      assert Elements(xs) == Elements(xs[..n]) + {xs[n]};
      assert xs[n] !in Elements(xs[..n]);
    }
  }

  /** A duplicate-free sequence drawn from the elements of `ys` is no longer
      than the number of distinct elements of `ys`. */
  lemma DistinctWithin<T>(xs: seq<T>, ys: seq<T>)
    requires Distinct(xs)
    requires forall x :: x in xs ==> x in ys
    ensures |xs| <= |Elements(ys)|
  {
    DistinctCardinality(xs);
    assert Elements(xs) <= Elements(ys);
    SubsetCardinality(Elements(xs), Elements(ys));
  }

  lemma SubsetCardinality<T>(a: set<T>, b: set<T>)
    requires a <= b
    ensures |a| <= |b|
  {
    assert b == a + (b - a);
  }
}
