/**
 * The payload given to a `<name>_attributes=` writer and its normalisation to
 * an ordered list of attribute maps: a list is taken as it is, a hash is
 * ordered by the integer value (`to_i`) of its keys and projected to its
 * values, anything else is an ArgumentError.
 */
module Payloads {
  import opened Values

  datatype Payload =
    | HashPayload(entries: seq<(string, Attrs)>)  // a hash, in its own insertion order
    | ArrayPayload(items: seq<Attrs>)
    | OtherPayload(value: Value)

  /** An entry decorated with its sort key `index.to_i`, as `sort_by` computes it once per entry. */
  datatype Keyed = Keyed(key: int, attrs: Attrs)

  function Decorate(es: seq<(string, Attrs)>): (r: seq<Keyed>)
    ensures |r| == |es| && forall k :: 0 <= k < |es| ==> r[k] == Keyed(ToI(es[k].0), es[k].1)
  {
    seq(|es|, k requires 0 <= k < |es| => Keyed(ToI(es[k].0), es[k].1))
  }

  ghost predicate KeySorted(ks: seq<Keyed>) {
    forall i, j :: 0 <= i < j < |ks| ==> ks[i].key <= ks[j].key
  }

  ghost predicate DistinctKeys(ks: seq<Keyed>) {
    forall i, j :: 0 <= i < j < |ks| ==> ks[i].key != ks[j].key
  }

  /** Insert one entry before the first entry with a larger key. */
  function Insert(e: Keyed, ks: seq<Keyed>): (r: seq<Keyed>)
    ensures |r| == |ks| + 1
    ensures multiset(r) == multiset(ks) + multiset{e}
    decreases |ks|
  {
    if |ks| == 0 then [e]
    else if e.key <= ks[0].key then [e] + ks
    else
      assert ks == [ks[0]] + ks[1..];
      [ks[0]] + Insert(e, ks[1..])
  }

  /** The first entry of a sorted list has the least key. */
  lemma HeadIsLeast(ks: seq<Keyed>)
    requires |ks| > 0 && KeySorted(ks)
    ensures forall y :: y in ks ==> ks[0].key <= y.key
  {
    forall y | y in ks ensures ks[0].key <= y.key {
      var j :| 0 <= j < |ks| && ks[j] == y;
    }
  }

  /** Putting an entry with a key no larger than any other in front keeps a list sorted. */
  lemma ConsKeepsSorted(x: Keyed, ks: seq<Keyed>)
    requires KeySorted(ks)
    requires forall y :: y in ks ==> x.key <= y.key
    ensures KeySorted([x] + ks)
  {
    var r := [x] + ks;
    forall i, j | 0 <= i < j < |r| ensures r[i].key <= r[j].key {
      assert r[j] == ks[j - 1];
      if i > 0 {
        assert r[i] == ks[i - 1];
      }
    }
  }

  /** Inserting into a sorted list keeps it sorted. */
  lemma {:induction false} InsertKeepsSorted(e: Keyed, ks: seq<Keyed>)
    requires KeySorted(ks)
    ensures KeySorted(Insert(e, ks))
    decreases |ks|
  {
    if |ks| > 0 {
      HeadIsLeast(ks);
      if e.key <= ks[0].key {
        ConsKeepsSorted(e, ks);
      } else {
        assert ks == [ks[0]] + ks[1..];
        InsertKeepsSorted(e, ks[1..]);
        var rest := Insert(e, ks[1..]);
        forall x | x in rest ensures ks[0].key <= x.key {
          assert x in multiset(rest);
          if x != e {
            assert x in multiset(ks[1..]);
            assert x in ks;
          }
        }
        ConsKeepsSorted(ks[0], rest);
      }
    }
  }

  /** `sort_by { |index, _| index.to_i }`: a permutation of the entries in ascending key order. */
  function SortByKey(ks: seq<Keyed>): (r: seq<Keyed>)
    ensures KeySorted(r)
    ensures multiset(r) == multiset(ks)
    ensures |r| == |ks|
    ensures forall x :: x in r <==> x in ks
    decreases |ks|
  {
    if |ks| == 0 then []
    else
      assert ks == [ks[0]] + ks[1..];
      var rest := SortByKey(ks[1..]);
      InsertKeepsSorted(ks[0], rest);
      var r := Insert(ks[0], rest);
      assert forall x :: x in r <==> x in multiset(r);
      r
  }

  /** `.map { |_, attributes| attributes }`. */
  function ValuesOf(ks: seq<Keyed>): (r: seq<Attrs>)
    ensures |r| == |ks| && forall k :: 0 <= k < |ks| ==> r[k] == ks[k].attrs
  {
    seq(|ks|, k requires 0 <= k < |ks| => ks[k].attrs)
  }

  /**
   * The payload as the ordered list of attribute maps the assigner walks: a
   * list as it is, a hash as its values in key order, anything else refused.
   */
  function Normalize(p: Payload): (r: Result<seq<Attrs>>)
    ensures r.Err? <==> p.OtherPayload?
    ensures r.Err? ==> r.error == HashOrArrayExpected
    ensures p.ArrayPayload? ==> r == Ok(p.items)
    ensures p.HashPayload? ==> |r.value| == |p.entries|
  {
    match p
    case HashPayload(es) => Ok(ValuesOf(SortByKey(Decorate(es))))
    case ArrayPayload(items) => Ok(items)
    case OtherPayload(_) => Err(HashOrArrayExpected)
  }

  /** The attribute maps of a hash's entries, in the hash's own order. */
  function HashValues(es: seq<(string, Attrs)>): (r: seq<Attrs>)
    ensures |r| == |es| && forall k :: 0 <= k < |es| ==> r[k] == es[k].1
  {
    seq(|es|, k requires 0 <= k < |es| => es[k].1)
  }

  lemma ValuesOfCons(x: Keyed, ks: seq<Keyed>)
    ensures ValuesOf([x] + ks) == [x.attrs] + ValuesOf(ks)
  {
    var l := ValuesOf([x] + ks);
    var r := [x.attrs] + ValuesOf(ks);
    forall k | 0 <= k < |l| ensures l[k] == r[k] {
      if k > 0 {
        assert ([x] + ks)[k] == ks[k - 1];
      }
    }
    assert l == r;
  }

  /** Inserting an entry adds its attributes to the projected values. */
  lemma {:induction false} InsertValues(e: Keyed, ks: seq<Keyed>)
    ensures multiset(ValuesOf(Insert(e, ks))) == multiset(ValuesOf(ks)) + multiset{e.attrs}
    decreases |ks|
  {
    if |ks| == 0 {
      assert ValuesOf([e]) == [e.attrs];
    } else if e.key <= ks[0].key {
      ValuesOfCons(e, ks);
    } else {
      assert ks == [ks[0]] + ks[1..];
      InsertValues(e, ks[1..]);
      ValuesOfCons(ks[0], Insert(e, ks[1..]));
      ValuesOfCons(ks[0], ks[1..]);
    }
  }

  /** Sorting permutes the projected values. */
  lemma {:induction false} SortValues(ks: seq<Keyed>)
    ensures multiset(ValuesOf(SortByKey(ks))) == multiset(ValuesOf(ks))
    decreases |ks|
  {
    if |ks| > 0 {
      assert ks == [ks[0]] + ks[1..];
      SortValues(ks[1..]);
      InsertValues(ks[0], SortByKey(ks[1..]));
      ValuesOfCons(ks[0], ks[1..]);
    }
  }

  /** A hash payload is processed as a permutation of its values: each value once per entry, none added or lost. */
  lemma HashPayloadPermutesValues(es: seq<(string, Attrs)>)
    ensures Normalize(HashPayload(es)).Ok?
    ensures multiset(Normalize(HashPayload(es)).value) == multiset(HashValues(es))
  {
    SortValues(Decorate(es));
    assert ValuesOf(Decorate(es)) == HashValues(es);
  }

  /** Putting an entry whose key is new in front of a list of distinct keys keeps them distinct. */
  lemma ConsKeepsDistinct(x: Keyed, ks: seq<Keyed>)
    requires DistinctKeys(ks)
    requires forall y :: y in ks ==> y.key != x.key
    ensures DistinctKeys([x] + ks)
  {
    var r := [x] + ks;
    forall i, j | 0 <= i < j < |r| ensures r[i].key != r[j].key {
      assert r[j] == ks[j - 1];
      if i > 0 {
        assert r[i] == ks[i - 1];
      }
    }
  }

  lemma {:induction false} InsertKeepsDistinct(e: Keyed, ks: seq<Keyed>)
    requires KeySorted(ks) && DistinctKeys(ks)
    requires forall x :: x in ks ==> x.key != e.key
    ensures DistinctKeys(Insert(e, ks))
    decreases |ks|
  {
    if |ks| == 0 || e.key <= ks[0].key {
      ConsKeepsDistinct(e, ks);
    } else {
      assert ks == [ks[0]] + ks[1..];
      InsertKeepsDistinct(e, ks[1..]);
      var rest := Insert(e, ks[1..]);
      forall x | x in rest ensures x.key != ks[0].key {
        assert x in multiset(rest);
        if x != e {
          assert x in multiset(ks[1..]);
          assert x in ks[1..];
        }
      }
      ConsKeepsDistinct(ks[0], rest);
    }
  }

  lemma {:induction false} SortKeepsDistinct(ks: seq<Keyed>)
    requires DistinctKeys(ks)
    ensures DistinctKeys(SortByKey(ks))
    decreases |ks|
  {
    if |ks| > 0 {
      assert ks == [ks[0]] + ks[1..];
      SortKeepsDistinct(ks[1..]);
      forall x | x in SortByKey(ks[1..]) ensures x.key != ks[0].key {
        var j :| 0 <= j < |ks[1..]| && ks[1..][j] == x;
        assert ks[j + 1] == x;
      }
      InsertKeepsDistinct(ks[0], SortByKey(ks[1..]));
    }
  }

  /** Strictly increasing keys drawn from [0, n) in a list of length n are 0, 1, ..., n - 1. */
  lemma {:induction false} KeyAtLeastPosition(ks: seq<Keyed>, i: nat)
    requires KeySorted(ks) && DistinctKeys(ks)
    requires forall k :: 0 <= k < |ks| ==> 0 <= ks[k].key
    requires i < |ks|
    ensures ks[i].key >= i
    decreases i
  {
    if i > 0 {
      KeyAtLeastPosition(ks, i - 1);
    }
  }

  lemma {:induction false} KeyAtMostPosition(ks: seq<Keyed>, i: nat)
    requires KeySorted(ks) && DistinctKeys(ks)
    requires forall k :: 0 <= k < |ks| ==> ks[k].key < |ks|
    requires i < |ks|
    ensures ks[i].key <= i
    decreases |ks| - i
  {
    if i < |ks| - 1 {
      KeyAtMostPosition(ks, i + 1);
    }
  }

  /** A sorted list of distinct keys drawn from [0, n), n its length, holds key i at position i. */
  lemma KeysArePositions(ks: seq<Keyed>)
    requires KeySorted(ks) && DistinctKeys(ks)
    requires forall k :: 0 <= k < |ks| ==> 0 <= ks[k].key < |ks|
    ensures forall i :: 0 <= i < |ks| ==> ks[i].key == i
  {
    forall i | 0 <= i < |ks| ensures ks[i].key == i {
      KeyAtLeastPosition(ks, i);
      KeyAtMostPosition(ks, i);
    }
  }

  /**
   * A hash payload keyed by the indices 0 .. n-1 (in any order, in any
   * spelling `to_i` reads as those indices) normalises to the list that holds
   * each entry's attributes at the position its key names: the equivalent list
   * payload.
   */
  lemma HashPayloadAsList(es: seq<(string, Attrs)>)
    requires forall i, j :: 0 <= i < j < |es| ==> ToI(es[i].0) != ToI(es[j].0)
    requires forall k :: 0 <= k < |es| ==> 0 <= ToI(es[k].0) < |es|
    ensures Normalize(HashPayload(es)).Ok?
    ensures |Normalize(HashPayload(es)).value| == |es|
    ensures forall k :: 0 <= k < |es| ==> Normalize(HashPayload(es)).value[ToI(es[k].0)] == es[k].1
  {
    var ks := Decorate(es);
    var s := SortByKey(ks);
    assert DistinctKeys(ks);
    SortKeepsDistinct(ks);
    forall k | 0 <= k < |s| ensures 0 <= s[k].key < |s| {
      assert s[k] in ks;
    }
    KeysArePositions(s);
    forall k | 0 <= k < |es| ensures ValuesOf(s)[ToI(es[k].0)] == es[k].1 {
      assert ks[k] in s;
      var p :| 0 <= p < |s| && s[p] == ks[k];
    }
  }
}
