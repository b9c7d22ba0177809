/** Keyset paging: a query for the next keys above an exclusive cursor, in ascending
    order, and what following such pages visits. */
module Paging {

  predicate Increasing(s: seq<int>) {
    forall i, j :: 0 <= i < j < |s| ==> s[i] < s[j]
  }

  /** The smallest keys above the cursor, at most `limit` of them. */
  ghost predicate IsPage(keys: set<int>, after: int, limit: nat, page: seq<int>) {
    && Increasing(page) && |page| <= limit
    && (forall k :: k in page ==> k in keys && after < k)
    && (forall k :: k in keys && after < k && k !in page ==> |page| == limit && forall j :: j in page ==> j < k)
  }

  method Pick<T>(s: set<T>) returns (x: T)
    requires s != {}
    ensures x in s
  {
    x :| x in s;
  }

  method Smallest(s: set<int>) returns (m: int)
    requires s != {}
    ensures m in s && forall k :: k in s ==> m <= k
  {
    m := Pick(s);
    var rest := s - {m};
    while rest != {}
      invariant rest <= s && m in s && forall k :: k in s && k !in rest ==> m <= k
      decreases rest
    {
      var k := Pick(rest);
      if k < m {
        m := k;
      }
      rest := rest - {k};
    }
  }

  /** SELECT key WHERE key > after ORDER BY key LIMIT limit. */
  method SelectPage(keys: set<int>, after: int, limit: nat) returns (page: seq<int>)
    ensures IsPage(keys, after, limit, page)
  {
    page := [];
    var rest := set k | k in keys && after < k;
    while |page| < limit && rest != {}
      invariant |page| <= limit && Increasing(page)
      invariant rest <= keys && forall k :: k in rest ==> after < k && k !in page
      invariant forall k :: k in page ==> k in keys && after < k && k !in rest
      invariant forall k :: k in keys && after < k ==> k in page || k in rest
      invariant forall j, k :: j in page && k in rest ==> j < k
      decreases rest
    {
      var m := Smallest(rest);
      assert forall i :: 0 <= i < |page| ==> page[i] in page;
      page := page + [m];
      rest := rest - {m};
    }
  }

  /** A page leaves no key out between two of its elements, nor before its first. */
  lemma PagePrefix(keys: set<int>, after: int, limit: nat, page: seq<int>, i: nat, k: int)
    requires IsPage(keys, after, limit, page) && i < |page|
    requires k in keys && (if i == 0 then after else page[i - 1]) < k <= page[i]
    ensures k == page[i]
  {
    assert page[i] in page;
    assert i > 0 ==> page[i - 1] in page;
    if k in page {
      var j :| 0 <= j < |page| && page[j] == k;
    }
  }
}
