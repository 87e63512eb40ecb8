/**
 * Sequences of records that carry a string identifier (goals, achievement
 * items).  The repository finds and filters such lists by identifier: a
 * membership test (`any(x['id'] == id for x in xs)`), a first-match search
 * and a list comprehension that drops every record with a given id.
 */
module Keyed {

  /** Some element of `s` has identifier `id`. */
  predicate HasKey<T>(s: seq<T>, key: T -> string, id: string)
  {
    exists k :: 0 <= k < |s| && key(s[k]) == id
  }

  /**
   * `[x for x in s if key(x) != id]`: every element whose identifier is not
   * `id`, in the original order.
   */
  function RemoveKey<T>(s: seq<T>, key: T -> string, id: string): (r: seq<T>)
    ensures |r| <= |s|
    ensures forall k :: 0 <= k < |r| ==> r[k] in s && key(r[k]) != id
    ensures forall k :: 0 <= k < |s| && key(s[k]) != id ==> s[k] in r
    ensures !HasKey(r, key, id)
  {
    if s == [] then []
    else (if key(s[0]) == id then [] else [s[0]]) + RemoveKey(s[1..], key, id)
  }

  /** The position of the first element with identifier `id`. */
  function FirstIndex<T>(s: seq<T>, key: T -> string, id: string): (i: nat)
    requires HasKey(s, key, id)
    ensures i < |s| && key(s[i]) == id
    ensures forall k :: 0 <= k < i ==> key(s[k]) != id
  {
    if key(s[0]) == id then 0
    else
      assert HasKey(s[1..], key, id) by {
        var k :| 0 <= k < |s| && key(s[k]) == id;
        assert k > 0 && key(s[1..][k - 1]) == id;
      }
      FirstIndex(s[1..], key, id) + 1
  }

  /** Removing an identifier that does not occur is the identity. */
  lemma {:induction false} RemoveAbsent<T>(s: seq<T>, key: T -> string, id: string)
    requires !HasKey(s, key, id)
    ensures RemoveKey(s, key, id) == s
  {
    if s != [] {
      assert key(s[0]) != id;
      forall k | 0 <= k < |s[1..]|
        ensures key(s[1..][k]) != id
      {
        assert s[1..][k] == s[k + 1];
      }
      RemoveAbsent(s[1..], key, id);
      assert [s[0]] + s[1..] == s;
    }
  }

  /** Removal distributes over concatenation, so it keeps the survivors' order. */
  lemma {:induction false} RemoveDistributes<T>(a: seq<T>, b: seq<T>, key: T -> string, id: string)
    ensures RemoveKey(a + b, key, id) == RemoveKey(a, key, id) + RemoveKey(b, key, id)
  {
    if a == [] {
      assert a + b == b;
    } else {
      assert (a + b)[0] == a[0];
      assert (a + b)[1..] == a[1..] + b;
      RemoveDistributes(a[1..], b, key, id);
    }
  }

  /** Deleting twice is deleting once. */
  lemma RemoveIdempotent<T>(s: seq<T>, key: T -> string, id: string)
    ensures RemoveKey(RemoveKey(s, key, id), key, id) == RemoveKey(s, key, id)
  {
    RemoveAbsent(RemoveKey(s, key, id), key, id);
  }

  /** Appending an element with a fresh identifier and then removing that identifier restores the list. */
  lemma RemoveAfterAppend<T>(s: seq<T>, x: T, key: T -> string)
    requires !HasKey(s, key, key(x))
    ensures RemoveKey(s + [x], key, key(x)) == s
  {
    RemoveDistributes(s, [x], key, key(x));
    RemoveAbsent(s, key, key(x));
    assert RemoveKey([x], key, key(x)) == [] + RemoveKey([x][1..], key, key(x));
    assert [x][1..] == [];
  }
}
