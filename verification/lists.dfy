/** Ordered lists as the document manager uses them: registries scanned in
    registration order with the first capable entry winning, and the
    open-editor list from which one occurrence is removed. */
module Lists {

  datatype Option<+T> = None | Some(value: T)

  /** Index of the first element of `s` that satisfies `p`, scanning from the
      front; `None` when no element does. */
  function FirstWhere<X>(s: seq<X>, p: X -> bool): (r: Option<nat>)
    ensures r.Some? ==> r.value < |s| && p(s[r.value])
    ensures r.Some? ==> forall j :: 0 <= j < r.value ==> !p(s[j])
    ensures r.None? <==> forall j :: 0 <= j < |s| ==> !p(s[j])
  {
    if |s| == 0 then None
    else if p(s[0]) then Some(0)
    else match FirstWhere(s[1..], p)
      case None => None
      case Some(k) => Some(k + 1)
  }

  /** The first-match index is the only index that matches with no match before it. */
  lemma FirstWhereUnique<X>(s: seq<X>, p: X -> bool, k: nat)
    requires k < |s| && p(s[k])
    requires forall j :: 0 <= j < k ==> !p(s[j])
    ensures FirstWhere(s, p) == Some(k)
  {
  }

  /** Appending entries never changes a resolution that already succeeds:
      earlier registrations take precedence over later ones. */
  lemma {:induction false} AppendKeepsFirst<X>(s: seq<X>, t: seq<X>, p: X -> bool)
    requires FirstWhere(s, p).Some?
    ensures FirstWhere(s + t, p) == FirstWhere(s, p)
  {
    var k := FirstWhere(s, p).value;
    assert (s + t)[k] == s[k];
    forall j | 0 <= j < k ensures !p((s + t)[j]) {
      assert (s + t)[j] == s[j];
    }
    FirstWhereUnique(s + t, p, k);
  }

  /** When nothing in `s` matches, a scan of `s + t` resolves to the first match
      in `t`, shifted past `s`. */
  lemma {:induction false} AppendAfterNoMatch<X>(s: seq<X>, t: seq<X>, p: X -> bool)
    requires FirstWhere(s, p).None?
    ensures FirstWhere(s + t, p) ==
      match FirstWhere(t, p)
      case None => None
      case Some(k) => Some(|s| + k)
  {
    match FirstWhere(t, p)
    case None =>
      forall j | 0 <= j < |s + t| ensures !p((s + t)[j]) {
        if j < |s| { assert (s + t)[j] == s[j]; } else { assert (s + t)[j] == t[j - |s|]; }
      }
    case Some(k) =>
      assert (s + t)[|s| + k] == t[k];
      forall j | 0 <= j < |s| + k ensures !p((s + t)[j]) {
        if j < |s| { assert (s + t)[j] == s[j]; } else { assert (s + t)[j] == t[j - |s|]; }
      }
      FirstWhereUnique(s + t, p, |s| + k);
  }

  /** Registration order decides between two capable entries: whatever follows
      them, `a` registered before `b` (with nothing capable before `a`) wins. */
  lemma RegisteredFirstWins<X>(pre: seq<X>, a: X, mid: seq<X>, b: X, post: seq<X>, p: X -> bool)
    requires FirstWhere(pre, p).None?
    requires p(a) && p(b)
    ensures FirstWhere(pre + [a] + mid + [b] + post, p) == Some(|pre|)
  {
    AppendAfterNoMatch(pre, [a], p);
    assert FirstWhere(pre + [a], p) == Some(|pre|);
    AppendKeepsFirst(pre + [a], mid + [b] + post, p);
    assert pre + [a] + mid + [b] + post == (pre + [a]) + (mid + [b] + post);
  }

  /** `s` without its first occurrence of `x`; `s` itself when `x` does not occur. */
  function RemoveFirst<X(==)>(s: seq<X>, x: X): (r: seq<X>)
    ensures x !in s ==> r == s
    ensures x in s ==> exists i :: 0 <= i < |s| && s[i] == x && x !in s[..i] && r == s[..i] + s[i + 1..]
    ensures multiset(r) == multiset(s) - multiset{x}
  {
    match FirstWhere(s, y => y == x)
    case None => s
    case Some(i) =>
      assert s == s[..i] + [s[i]] + s[i + 1..];
      assert x !in s[..i];
      s[..i] + s[i + 1..]
  }

  /** Removing an element that was just appended, and occurs nowhere else,
      gives back the list it was appended to. */
  lemma RemoveFirstOfAppended<X>(s: seq<X>, x: X)
    requires x !in s
    ensures RemoveFirst(s + [x], x) == s
  {
    var t := s + [x];
    assert x in t;
    var i :| 0 <= i < |t| && t[i] == x && x !in t[..i] && RemoveFirst(t, x) == t[..i] + t[i + 1..];
    assert t[..|s|] == s;
  }
}
