/** Python dicts and sets iterate their keys in an order the program does
    not control; the model passes that order as a sequence of keys. */
module Dicts {

  /** A key order that lists the keys of a table, each once: the order in
      which Python iterates a dict or a set. */
  predicate IsKeyOrder<V>(order: seq<int>, table: map<int, V>)
  {
    && (forall k :: 0 <= k < |order| ==> order[k] in table)
    && (forall x :: x in table ==> x in order)
    && Distinct(order)
  }

  /** An order in which Python iterates a set: each element once. */
  predicate IsSetOrder(order: seq<int>, elements: set<int>)
  {
    && (forall k :: 0 <= k < |order| ==> order[k] in elements)
    && (forall x :: x in elements ==> x in order)
    && Distinct(order)
  }

  /** The elements an order lists are the set it iterates. */
  lemma SetOfOrder(order: seq<int>, elements: set<int>)
    requires IsSetOrder(order, elements)
    ensures (set x | x in order) == elements
  {
    forall x
      ensures x in (set y | y in order) <==> x in elements
    {
      if x in order {
        var k :| 0 <= k < |order| && order[k] == x;
      }
    }
  }

  predicate Distinct(s: seq<int>)
  {
    forall i, j :: 0 <= i < j < |s| ==> s[i] != s[j]
  }

  /** Two duplicate-free sequences with no element in common join into a
      duplicate-free sequence. */
  lemma DistinctAppend(a: seq<int>, b: seq<int>)
    requires Distinct(a) && Distinct(b)
    requires forall k :: 0 <= k < |b| ==> b[k] !in a
    ensures Distinct(a + b)
  {
    forall i, j | 0 <= i < j < |a + b|
      ensures (a + b)[i] != (a + b)[j]
    {
      if j >= |a| && i < |a| {
        assert (a + b)[j] == b[j - |a|];
      }
    }
  }
}
