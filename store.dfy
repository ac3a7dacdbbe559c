/** The document-store queries the handlers rely on, over a collection kept as a
    sequence in storage (natural) order. A filter is a predicate on documents. */
module Store {
  import opened Common

  /** `findOne(filter)`: the position of the first document, in storage order,
      that the filter matches, or None when no document matches. */
  function FindFirst<T>(s: seq<T>, p: T -> bool): (r: Option<nat>)
    ensures r.Some? ==> r.value < |s| && p(s[r.value])
    ensures r.Some? ==> forall j :: 0 <= j < r.value ==> !p(s[j])
    ensures r.None? <==> forall j :: 0 <= j < |s| ==> !p(s[j])
    decreases |s|
  {
    if |s| == 0 then None
    else if p(s[0]) then Some(0)
    else match FindFirst(s[1..], p)
      case None => None
      case Some(i) => Some(i + 1)
  }

  /** `find(filter)`: the documents the filter keeps, in storage order. With the
      negated filter it is what `deleteMany` leaves behind. */
  function Select<T(!new)>(s: seq<T>, keep: T -> bool): (r: seq<T>)
    ensures |r| <= |s|
    ensures forall i :: 0 <= i < |r| ==> keep(r[i])
    decreases |s|
  {
    if |s| == 0 then []
    else (if keep(s[0]) then [s[0]] else []) + Select(s[1..], keep)
  }

  /** The documents `find` returns are exactly the stored documents the
      filter accepts. */
  lemma {:induction false} SelectMembers<T(!new)>(s: seq<T>, keep: T -> bool)
    ensures forall x :: x in Select(s, keep) <==> x in s && keep(x)
    decreases |s|
  {
    if |s| > 0 {
      SelectMembers(s[1..], keep);
      assert s == [s[0]] + s[1..];
    }
  }

  /** No two documents share a key (the `_id` primary key of a collection). */
  ghost predicate KeysDistinct<T>(s: seq<T>, key: T -> Id)
  {
    forall i, j :: 0 <= i < j < |s| ==> key(s[i]) != key(s[j])
  }

  /** Every key was handed out before `bound`. */
  ghost predicate KeysBelow<T>(s: seq<T>, key: T -> Id, bound: nat)
  {
    forall i :: 0 <= i < |s| ==> key(s[i]) < bound
  }

  /** A filter applied to a concatenation filters each part. */
  lemma {:induction false} SelectAppend<T(!new)>(a: seq<T>, b: seq<T>, keep: T -> bool)
    ensures Select(a + b, keep) == Select(a, keep) + Select(b, keep)
    decreases |a|
  {
    if |a| == 0 {
      assert a + b == b;
    } else {
      assert (a + b)[1..] == a[1..] + b;
      SelectAppend(a[1..], b, keep);
    }
  }

  /** A filter that keeps every document changes nothing. */
  lemma {:induction false} SelectAll<T(!new)>(s: seq<T>, keep: T -> bool)
    requires forall i :: 0 <= i < |s| ==> keep(s[i])
    ensures Select(s, keep) == s
    decreases |s|
  {
    if |s| > 0 {
      SelectAll(s[1..], keep);
    }
  }

  /** The filter applied to a non-empty collection: the first document, when
      kept, followed by the filtered rest. */
  lemma SelectFirst<T(!new)>(s: seq<T>, keep: T -> bool)
    requires |s| > 0
    ensures Select(s, keep) == (if keep(s[0]) then [s[0]] else []) + Select(s[1..], keep)
  {
  }

  /** A filter that drops exactly the document at position i removes that one
      document and keeps the others in order. */
  lemma SelectDropsOne<T(!new)>(s: seq<T>, keep: T -> bool, i: nat)
    requires i < |s| && !keep(s[i])
    requires forall j :: 0 <= j < |s| && j != i ==> keep(s[j])
    ensures Select(s, keep) == s[..i] + s[i + 1..]
  {
    var before, after := s[..i], s[i + 1..];
    assert forall j :: 0 <= j < |before| ==> keep(before[j]) by {
      forall j | 0 <= j < |before| ensures keep(before[j]) { assert before[j] == s[j]; }
    }
    assert forall j :: 0 <= j < |after| ==> keep(after[j]) by {
      forall j | 0 <= j < |after| ensures keep(after[j]) { assert after[j] == s[i + 1 + j]; }
    }
    var rest := [s[i]] + after;
    SelectAll(before, keep);
    SelectAll(after, keep);
    SelectFirst(rest, keep);
    assert rest[1..] == after;
    assert Select(rest, keep) == [] + after == after;
    SplitAt(s, i);
    SelectAppend(before, rest, keep);
    assert Select(s, keep) == Select(before + rest, keep) == before + after;
  }

  lemma SplitAt<T>(s: seq<T>, i: nat)
    requires i < |s|
    ensures s == s[..i] + ([s[i]] + s[i + 1..])
  {
    assert s[i..] == [s[i]] + s[i + 1..];
  }

  /** Removing documents keeps the keys of the rest distinct. */
  lemma {:induction false} SelectKeepsKeysDistinct<T(!new)>(s: seq<T>, key: T -> Id, keep: T -> bool)
    requires KeysDistinct(s, key)
    ensures KeysDistinct(Select(s, keep), key)
    decreases |s|
  {
    if |s| > 0 {
      var rest := Select(s[1..], keep);
      assert KeysDistinct(s[1..], key) by {
        forall i, j | 0 <= i < j < |s[1..]| ensures key(s[1..][i]) != key(s[1..][j]) {
          assert key(s[i + 1]) != key(s[j + 1]);
        }
      }
      SelectKeepsKeysDistinct(s[1..], key, keep);
      SelectMembers(s[1..], keep);
      if keep(s[0]) {
        forall j | 0 <= j < |rest| ensures key(s[0]) != key(rest[j]) {
          assert rest[j] in s[1..];
          var m :| 0 <= m < |s[1..]| && s[1..][m] == rest[j];
          assert key(s[0]) != key(s[m + 1]);
        }
        var r := [s[0]] + rest;
        forall i, j | 0 <= i < j < |r| ensures key(r[i]) != key(r[j]) {
          if i > 0 { assert r[i] == rest[i - 1] && r[j] == rest[j - 1]; }
        }
      } else {
        assert [] + rest == rest;
      }
    }
  }

  /** Removing documents keeps every remaining key below the bound. */
  lemma SelectKeepsKeysBelow<T(!new)>(s: seq<T>, key: T -> Id, keep: T -> bool, bound: nat)
    requires KeysBelow(s, key, bound)
    ensures KeysBelow(Select(s, keep), key, bound)
  {
    var r := Select(s, keep);
    SelectMembers(s, keep);
    forall i | 0 <= i < |r| ensures key(r[i]) < bound {
      assert r[i] in s;
    }
  }

  /** The sequence without the document at position i (`findByIdAndDelete` of
      the document found there). */
  function RemoveAt<T>(s: seq<T>, i: nat): (r: seq<T>)
    requires i < |s|
    ensures |r| == |s| - 1
    ensures forall k :: 0 <= k < |r| ==> r[k] == (if k < i then s[k] else s[k + 1])
  {
    s[..i] + s[i + 1..]
  }

  /** Appending a document whose key is at least the bound keeps keys distinct,
      and every key is then below the new document's key plus one. */
  lemma AppendFreshKey<T>(s: seq<T>, key: T -> Id, x: T, bound: nat)
    requires KeysDistinct(s, key) && KeysBelow(s, key, bound) && key(x) >= bound
    ensures KeysDistinct(s + [x], key) && KeysBelow(s + [x], key, key(x) + 1)
  {
    var r := s + [x];
    forall i, j | 0 <= i < j < |r| ensures key(r[i]) != key(r[j]) {
      if j == |s| { assert key(r[i]) < bound; } else { assert r[i] == s[i] && r[j] == s[j]; }
    }
  }

  /** Removing one document keeps keys distinct and below the bound. */
  lemma RemoveAtKeepsKeys<T>(s: seq<T>, key: T -> Id, i: nat, bound: nat)
    requires i < |s| && KeysDistinct(s, key) && KeysBelow(s, key, bound)
    ensures KeysDistinct(RemoveAt(s, i), key) && KeysBelow(RemoveAt(s, i), key, bound)
  {
    var r := RemoveAt(s, i);
    forall a, b | 0 <= a < b < |r| ensures key(r[a]) != key(r[b]) {
      var a' := if a < i then a else a + 1;
      var b' := if b < i then b else b + 1;
      assert r[a] == s[a'] && r[b] == s[b'] && a' < b';
    }
  }

  /** Replacing a document by one with the same key keeps keys distinct and
      below the bound. */
  lemma ReplaceKeepsKeys<T>(s: seq<T>, key: T -> Id, i: nat, x: T, bound: nat)
    requires i < |s| && key(x) == key(s[i]) && KeysDistinct(s, key) && KeysBelow(s, key, bound)
    ensures KeysDistinct(s[i := x], key) && KeysBelow(s[i := x], key, bound)
  {
    var r := s[i := x];
    assert forall k :: 0 <= k < |r| ==> key(r[k]) == key(s[k]);
  }

  /** Under distinct keys, the first document with the key of position i is
      the one at i. */
  lemma FindKeyAt<T>(s: seq<T>, key: T -> Id, i: nat, p: T -> bool)
    requires KeysDistinct(s, key) && i < |s|
    requires forall x :: p(x) <==> key(x) == key(s[i])
    ensures FindFirst(s, p) == Some(i)
  {
    assert p(s[i]);
    forall j | 0 <= j < |s| && j != i ensures !p(s[j]) {
      if j < i { assert key(s[j]) != key(s[i]); } else { assert key(s[i]) != key(s[j]); }
    }
  }

  /** Appending a document the filter rejects to a collection without a match
      leaves it without a match. */
  lemma FindFirstAppendMiss<T>(s: seq<T>, x: T, p: T -> bool)
    requires FindFirst(s, p).None? && !p(x)
    ensures FindFirst(s + [x], p).None?
  {
    var r := s + [x];
    forall j | 0 <= j < |r| ensures !p(r[j]) {
      if j < |s| { assert r[j] == s[j]; }
    }
  }

  /** The first match is at n when n matches and nothing before it does. */
  lemma FindFirstIs<T>(s: seq<T>, p: T -> bool, n: nat)
    requires n < |s| && p(s[n])
    requires forall j :: 0 <= j < n ==> !p(s[j])
    ensures FindFirst(s, p) == Some(n)
  {
    var r := FindFirst(s, p);
    assert r.Some?;
    assert !(r.value < n);
  }
}
