/**
 * String helpers the client uses from the JavaScript library:
 * `Array.prototype.join`, and the inverse splitting used to state that the
 * canonical strings the client builds can be read back.
 */
module Text {
  import opened Wrappers

  /** `parts.join(sep)`. */
  function Join(parts: seq<string>, sep: string): (r: string)
    ensures |parts| == 0 ==> r == ""
    ensures |parts| == 1 ==> r == parts[0]
  {
    if |parts| == 0 then ""
    else if |parts| == 1 then parts[0]
    else parts[0] + sep + Join(parts[1..], sep)
  }

  /** Three parts joined: `p + sep + q + sep + r`. */
  lemma JoinThree(p: string, q: string, r: string, sep: string)
    ensures Join([p, q, r], sep) == p + sep + q + sep + r
  {
    assert [p, q, r][1..] == [q, r];
    assert Join([q, r], sep) == q + sep + r by {
      assert [q, r][1..] == [r];
    }
    Regroup(p + sep, q + sep, r);
    Regroup(p, sep, q + sep);
  }

  /** Concatenation regrouped. */
  lemma Regroup(a: string, b: string, c: string)
    ensures a + (b + c) == a + b + c
  {
  }

  /** Index of the first occurrence of `c` in `s`. */
  function IndexOf(s: string, c: char): (r: Option<nat>)
    ensures r.None? <==> c !in s
    ensures r.Some? ==> r.value < |s| && s[r.value] == c && c !in s[..r.value]
  {
    if |s| == 0 then None
    else if s[0] == c then Some(0)
    else match IndexOf(s[1..], c)
      case None => None
      case Some(i) =>
        assert s[..i + 1] == [s[0]] + s[1..][..i];
        Some(i + 1)
  }

  /** `s.split(c)` for a one-character separator. */
  function Split(s: string, c: char): (r: seq<string>)
    ensures |r| > 0
    decreases |s|
  {
    match IndexOf(s, c)
    case None => [s]
    case Some(i) => [s[..i]] + Split(s[i + 1..], c)
  }

  lemma IndexOfAfterPart(p: string, c: char, t: string)
    requires c !in p
    ensures IndexOf(p + [c] + t, c) == Some(|p|)
  {
    var s := p + [c] + t;
    assert s[..|p|] == p;
    assert s[|p|] == c;
  }

  /** Splitting a join on its separator gives the parts back when no part holds the separator. */
  lemma {:induction false} SplitJoin(parts: seq<string>, c: char)
    requires |parts| > 0
    requires forall i :: 0 <= i < |parts| ==> c !in parts[i]
    ensures Split(Join(parts, [c]), c) == parts
  {
    if |parts| == 1 {
      assert IndexOf(parts[0], c).None?;
    } else {
      var p := parts[0];
      var rest := Join(parts[1..], [c]);
      var s := p + [c] + rest;
      assert Join(parts, [c]) == s;
      IndexOfAfterPart(p, c, rest);
      assert s[..|p|] == p;
      assert s[|p| + 1..] == rest;
      assert Split(s, c) == [p] + Split(rest, c);
      forall i | 0 <= i < |parts| - 1
        ensures c !in parts[1..][i]
      {
        assert parts[1..][i] == parts[i + 1];
      }
      SplitJoin(parts[1..], c);
      assert parts == [p] + parts[1..];
    }
  }

  /** Appending a part to a non-empty join appends the separator and the part. */
  lemma {:induction false} JoinAppend(parts: seq<string>, sep: string, x: string)
    requires |parts| > 0
    ensures Join(parts + [x], sep) == Join(parts, sep) + sep + x
  {
    if |parts| > 1 {
      JoinAppend(parts[1..], sep, x);
      assert (parts + [x])[1..] == parts[1..] + [x];
    }
  }

  /** A join of at least one non-empty part is non-empty. */
  lemma {:induction false} JoinNonEmpty(parts: seq<string>, sep: string)
    requires |parts| > 0 && parts[0] != ""
    ensures Join(parts, sep) != ""
  {
  }

  // ---- ordering of keys, as `Array.prototype.sort()` without a comparator orders strings ----

  /** `a <= b` in lexicographic order of characters. */
  predicate LexLeq(a: string, b: string)
    decreases |a|
  {
    |a| == 0 || (|b| > 0 && (a[0] < b[0] || (a[0] == b[0] && LexLeq(a[1..], b[1..]))))
  }

  lemma {:induction false} LexLeqTotal(a: string, b: string)
    ensures LexLeq(a, b) || LexLeq(b, a)
    decreases |a|
  {
    if |a| > 0 && |b| > 0 && a[0] == b[0] {
      LexLeqTotal(a[1..], b[1..]);
    }
  }

  lemma {:induction false} LexLeqReflexive(a: string)
    ensures LexLeq(a, a)
    decreases |a|
  {
    if |a| > 0 {
      LexLeqReflexive(a[1..]);
    }
  }

  lemma {:induction false} LexLeqAntisymmetric(a: string, b: string)
    requires LexLeq(a, b) && LexLeq(b, a)
    ensures a == b
    decreases |a|
  {
    if |a| > 0 {
      LexLeqAntisymmetric(a[1..], b[1..]);
      assert a == [a[0]] + a[1..] && b == [b[0]] + b[1..];
    }
  }

  lemma {:induction false} LexLeqTransitive(a: string, b: string, c: string)
    requires LexLeq(a, b) && LexLeq(b, c)
    ensures LexLeq(a, c)
    decreases |a|
  {
    if |a| > 0 && a[0] == b[0] && b[0] == c[0] {
      LexLeqTransitive(a[1..], b[1..], c[1..]);
    }
  }

  /** `m` is the least element of `s`. */
  predicate IsLeast(m: string, s: set<string>)
  {
    m in s && forall x :: x in s ==> LexLeq(m, x)
  }

  lemma {:induction false} LeastExists(s: set<string>)
    requires s != {}
    ensures exists m :: IsLeast(m, s)
    decreases |s|
  {
    var x :| x in s;
    if s != {x} {
      LeastExists(s - {x});
      var m :| IsLeast(m, s - {x});
      LexLeqTotal(m, x);
      if LexLeq(m, x) {
        assert IsLeast(m, s);
      } else {
        forall y | y in s ensures LexLeq(x, y) {
          if y != x {
            LexLeqTransitive(x, m, y);
          } else {
            LexLeqReflexive(x);
          }
        }
        assert IsLeast(x, s);
      }
    } else {
      LexLeqReflexive(x);
      assert IsLeast(x, s);
    }
  }

  lemma LeastUnique(s: set<string>)
    ensures forall m, n :: IsLeast(m, s) && IsLeast(n, s) ==> m == n
  {
    forall m, n | IsLeast(m, s) && IsLeast(n, s) ensures m == n {
      LexLeqAntisymmetric(m, n);
    }
  }

  /** Strictly ascending: sorted and free of duplicates. */
  predicate StrictlyAscending(r: seq<string>)
  {
    forall i, j :: 0 <= i < j < |r| ==> LexLeq(r[i], r[j]) && r[i] != r[j]
  }

  /** `Object.keys(o).sort()`: the keys of a set in ascending order. */
  function SortedKeys(s: set<string>): seq<string>
    decreases |s|
  {
    if s == {} then []
    else
      LeastExists(s);
      LeastUnique(s);
      var m :| IsLeast(m, s);
      [m] + SortedKeys(s - {m})
  }

  /** The listing is strictly ascending and holds exactly the elements of the set, each once. */
  lemma {:induction false} SortedKeysCharacterised(s: set<string>)
    ensures StrictlyAscending(SortedKeys(s))
    ensures forall k :: k in SortedKeys(s) <==> k in s
    ensures |SortedKeys(s)| == |s|
    decreases |s|
  {
    if s != {} {
      LeastExists(s);
      var m :| IsLeast(m, s);
      SortedKeysUnfold(m, s);
      SortedKeysCharacterised(s - {m});
      AscendingCons(m, SortedKeys(s - {m}));
    }
  }

  /** An element below every element of an ascending listing can be put in front of it. */
  lemma AscendingCons(m: string, rest: seq<string>)
    requires StrictlyAscending(rest)
    requires forall k :: k in rest ==> LexLeq(m, k) && k != m
    ensures StrictlyAscending([m] + rest)
  {
    var r := [m] + rest;
    forall i, j | 0 <= i < j < |r| ensures LexLeq(r[i], r[j]) && r[i] != r[j] {
      assert r[j] == rest[j - 1];
      if i > 0 {
        assert r[i] == rest[i - 1];
      }
    }
  }

  /** The first element of a strictly ascending listing of `s` is the least element of `s`. */
  lemma HeadIsLeast(r: seq<string>, s: set<string>)
    requires StrictlyAscending(r) && r != []
    requires forall k :: k in r <==> k in s
    ensures IsLeast(r[0], s)
  {
    forall x | x in s ensures LexLeq(r[0], x) {
      var j :| 0 <= j < |r| && r[j] == x;
      if j == 0 { LexLeqReflexive(x); }
    }
  }

  /** SortedKeys starts with the least element and continues with the rest of the set. */
  lemma SortedKeysUnfold(m: string, s: set<string>)
    requires IsLeast(m, s)
    ensures SortedKeys(s) == [m] + SortedKeys(s - {m})
  {
    LeastUnique(s);
  }

  lemma AscendingTail(r: seq<string>)
    requires StrictlyAscending(r) && r != []
    ensures StrictlyAscending(r[1..])
    ensures r[0] !in r[1..]
  {
    var t := r[1..];
    forall i, j | 0 <= i < j < |t| ensures LexLeq(t[i], t[j]) && t[i] != t[j] {
      assert t[i] == r[i + 1] && t[j] == r[j + 1];
    }
  }

  /** The ascending listing of a set is unique: any strictly ascending sequence of exactly its elements is SortedKeys. */
  lemma {:induction false} AscendingListingUnique(r: seq<string>, s: set<string>)
    requires StrictlyAscending(r)
    requires forall k :: k in r <==> k in s
    ensures r == SortedKeys(s)
    decreases |r|
  {
    if r == [] {
      assert s == {};
    } else {
      HeadIsLeast(r, s);
      SortedKeysUnfold(r[0], s);
      AscendingTail(r);
      var s' := s - {r[0]};
      var tail := r[1..];
      assert forall k :: k in tail <==> k in s' by {
        forall k ensures k in tail <==> k in s' {
          if k in s' {
            var j :| 0 <= j < |r| && r[j] == k;
            assert tail[j - 1] == k;
          }
        }
      }
      AscendingListingUnique(tail, s');
      assert r == [r[0]] + tail;
    }
  }
}
