/** Generic helpers shared by every module: an optional value and the
    "first match" and "filter" shapes that the database queries use. */
module Common {

  datatype Option<+T> = None | Some(value: T)

  /** Index of the first element satisfying `p`, or `|s|` when there is none:
      the model of `query.filter(p).first()` over a table kept in query order. */
  function FirstIndex<T>(s: seq<T>, p: T -> bool): (k: nat)
    ensures k <= |s|
    ensures forall j :: 0 <= j < k ==> !p(s[j])
    ensures k < |s| ==> p(s[k])
  {
    if s == [] then 0
    else if p(s[0]) then 0
    else 1 + FirstIndex(s[1..], p)
  }

  /** Two indices that both satisfy the "first match" characterisation are equal. */
  lemma FirstIndexUnique<T>(s: seq<T>, p: T -> bool, k: nat)
    requires k <= |s|
    requires forall j :: 0 <= j < k ==> !p(s[j])
    requires k < |s| ==> p(s[k])
    ensures FirstIndex(s, p) == k
  {
  }

  /** The elements of `s` satisfying `p`, in their original order:
      the model of a list comprehension `[x for x in s if p(x)]`. */
  function Filter<T(!new)>(s: seq<T>, p: T -> bool): (r: seq<T>)
    ensures |r| <= |s|
    ensures forall x :: x in r <==> x in s && p(x)
  {
    if s == [] then []
    else (if p(s[0]) then [s[0]] else []) + Filter(s[1..], p)
  }

  /** The `k`-th kept element sits at some position `i` of `s`, and what is
      kept from before `i` is exactly the first `k` kept elements. */
  lemma {:induction false} FilterKeepsOrder<T(!new)>(s: seq<T>, p: T -> bool, k: nat)
    requires k < |Filter(s, p)|
    ensures exists i :: 0 <= i < |s| && s[i] == Filter(s, p)[k] && Filter(s[..i], p) == Filter(s, p)[..k]
    decreases |s|
  {
    var head := if p(s[0]) then [s[0]] else [];
    var rest := Filter(s[1..], p);
    if p(s[0]) && k == 0 {
      assert s[..0] == [];
    } else {
      var k' := k - |head|;
      FilterKeepsOrder(s[1..], p, k');
      var i' :| 0 <= i' < |s[1..]| && s[1..][i'] == rest[k'] && Filter(s[1..][..i'], p) == rest[..k'];
      FilterPrefixStep(s, p, i');
      PrefixOfAppend(head, rest, k);
      assert s[i' + 1] == Filter(s, p)[k] && Filter(s[..i' + 1], p) == Filter(s, p)[..k];
    }
  }

  lemma FilterPrefixStep<T(!new)>(s: seq<T>, p: T -> bool, i: nat)
    requires i < |s|
    ensures Filter(s[..i + 1], p) == (if p(s[0]) then [s[0]] else []) + Filter(s[1..][..i], p)
  {
    assert s[..i + 1][1..] == s[1..][..i];
  }

  lemma PrefixOfAppend<T>(a: seq<T>, b: seq<T>, k: nat)
    requires |a| <= k <= |a| + |b|
    ensures (a + b)[..k] == a + b[..k - |a|]
  {
  }

  /** Python truthiness of an optional integer: `None` and `0` are both false. */
  predicate Truthy(x: Option<int>)
  {
    x.Some? && x.value != 0
  }
}
