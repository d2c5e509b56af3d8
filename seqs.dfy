/**
 * `Array.prototype.filter` / a Python list comprehension with a condition,
 * and the facts about it that the scripts' "filter, then take the first"
 * and "filter, then slice" idioms rely on.
 */
module Seqs {
  import opened Common

  function Filter<T>(p: T -> bool, s: seq<T>): (r: seq<T>)
    ensures |r| <= |s|
    ensures forall k :: 0 <= k < |r| ==> p(r[k])
  {
    if |s| == 0 then []
    else if p(s[0]) then [s[0]] + Filter(p, s[1..])
    else Filter(p, s[1..])
  }

  lemma {:induction false} FilterMember<T>(p: T -> bool, s: seq<T>, x: T)
    ensures x in Filter(p, s) <==> x in s && p(x)
  {
    if |s| > 0 {
      FilterMember(p, s[1..], x);
      assert s == [s[0]] + s[1..];
    }
  }

  lemma {:induction false} FilterAppend<T>(p: T -> bool, a: seq<T>, b: seq<T>)
    ensures Filter(p, a + b) == Filter(p, a) + Filter(p, b)
  {
    if |a| == 0 {
      assert a + b == b;
    } else {
      assert (a + b)[1..] == a[1..] + b;
      FilterAppend(p, a[1..], b);
    }
  }

  /** The filter is empty exactly when no element passes. */
  lemma {:induction false} FilterEmpty<T>(p: T -> bool, s: seq<T>)
    ensures Filter(p, s) == [] <==> forall i :: 0 <= i < |s| ==> !p(s[i])
  {
    if |s| > 0 {
      FilterEmpty(p, s[1..]);
      if Filter(p, s) == [] {
        forall i | 0 <= i < |s| ensures !p(s[i]) {
          if i > 0 { assert s[i] == s[1..][i - 1]; }
        }
      }
    }
  }

  /** The first element of the filter is the first element of `s` that passes. */
  lemma {:induction false} FilterHead<T>(p: T -> bool, s: seq<T>)
    requires Filter(p, s) != []
    ensures exists i :: 0 <= i < |s| && p(s[i]) && Filter(p, s)[0] == s[i] && forall j :: 0 <= j < i ==> !p(s[j])
  {
    if !p(s[0]) {
      FilterHead(p, s[1..]);
      var i' :| 0 <= i' < |s| - 1 && p(s[1..][i']) && Filter(p, s[1..])[0] == s[1..][i']
        && forall j :: 0 <= j < i' ==> !p(s[1..][j]);
      assert forall j :: 0 <= j < i' + 1 ==> !p(s[j]) by {
        forall j | 0 <= j < i' + 1 ensures !p(s[j]) {
          if j > 0 { assert s[j] == s[1..][j - 1]; }
        }
      }
      assert Filter(p, s)[0] == s[i' + 1];
    } else {
      assert Filter(p, s)[0] == s[0];
    }
  }

  /** The filter keeps the order of `s`: its elements are found at increasing positions. */
  lemma {:induction false} FilterOrder<T>(p: T -> bool, s: seq<T>) returns (pos: seq<nat>)
    ensures |pos| == |Filter(p, s)|
    ensures forall k :: 0 <= k < |pos| ==> pos[k] < |s| && s[pos[k]] == Filter(p, s)[k]
    ensures forall k, l :: 0 <= k < l < |pos| ==> pos[k] < pos[l]
  {
    if |s| == 0 {
      pos := [];
    } else {
      var rest := FilterOrder(p, s[1..]);
      var shifted := seq(|rest|, k requires 0 <= k < |rest| => rest[k] + 1);
      if p(s[0]) {
        pos := [0] + shifted;
      } else {
        pos := shifted;
      }
    }
  }

  /** `s.filter(p)[0]`, with `None` for an empty filter: the first element of `s` that passes. */
  function First<T>(p: T -> bool, s: seq<T>): (r: Option<T>)
    ensures r.None? <==> forall i :: 0 <= i < |s| ==> !p(s[i])
    ensures r.Some? ==> exists i :: 0 <= i < |s| && s[i] == r.value && p(s[i])
                                    && forall j :: 0 <= j < i ==> !p(s[j])
  {
    var passed := Filter(p, s);
    FilterEmpty(p, s);
    if |passed| == 0 then None
    else
      FilterHead(p, s);
      Some(passed[0])
  }
}
