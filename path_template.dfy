/**
 * `path.replace('{name}', value)` as the generated endpoints use it: the
 * first occurrence of a placeholder is replaced.  JavaScript's
 * `String.prototype.replace` with a string pattern still expands the `$`
 * patterns of the replacement (`$$`, `$&`, `` $` ``, `$'`); ReplaceAsWritten
 * models that, and the endpoint model uses it. ReplaceLiteral models the
 * verbatim substitution the path template evidently means; the two agree
 * for every value without `$`.
 */
module PathTemplate {
  import opened Wrappers

  /** `pat` occurs in `s` starting at index `i`. */
  predicate OccursAt(s: string, pat: string, i: nat)
  {
    i + |pat| <= |s| && s[i..i + |pat|] == pat
  }

  function FindFrom(s: string, pat: string, i: nat): (r: Option<nat>)
    requires i <= |s|
    ensures r.Some? ==> i <= r.value && OccursAt(s, pat, r.value)
    ensures r.Some? ==> forall j :: i <= j < r.value ==> !OccursAt(s, pat, j)
    ensures r.None? ==> forall j :: i <= j <= |s| ==> !OccursAt(s, pat, j)
    decreases |s| - i
  {
    if OccursAt(s, pat, i) then Some(i)
    else if i == |s| then None
    else FindFrom(s, pat, i + 1)
  }

  /** The index of the first occurrence of `pat` in `s` (`s.indexOf(pat)`). */
  function Find(s: string, pat: string): (r: Option<nat>)
    ensures r.Some? ==> OccursAt(s, pat, r.value)
    ensures r.Some? ==> forall j :: 0 <= j < r.value ==> !OccursAt(s, pat, j)
    ensures r.None? <==> forall j :: 0 <= j <= |s| ==> !OccursAt(s, pat, j)
  {
    FindFrom(s, pat, 0)
  }

  /** The replacement text after expanding `$$`, `$&`, `` $` `` and `$'`; any other `$` stays as it is. */
  function Expand(rep: string, matched: string, before: string, after: string): string
    decreases |rep|
  {
    if |rep| == 0 then ""
    else if rep[0] == '$' && |rep| >= 2 && rep[1] == '$' then "$" + Expand(rep[2..], matched, before, after)
    else if rep[0] == '$' && |rep| >= 2 && rep[1] == '&' then matched + Expand(rep[2..], matched, before, after)
    else if rep[0] == '$' && |rep| >= 2 && rep[1] == '`' then before + Expand(rep[2..], matched, before, after)
    else if rep[0] == '$' && |rep| >= 2 && rep[1] == '\'' then after + Expand(rep[2..], matched, before, after)
    else [rep[0]] + Expand(rep[1..], matched, before, after)
  }

  /** A replacement without `$` expands to itself. */
  lemma {:induction false} ExpandWithoutDollar(rep: string, matched: string, before: string, after: string)
    requires '$' !in rep
    ensures Expand(rep, matched, before, after) == rep
    decreases |rep|
  {
    if |rep| > 0 {
      assert '$' !in rep[1..] by {
        forall c | c in rep[1..] ensures c != '$' {
          var k :| 0 <= k < |rep[1..]| && rep[1..][k] == c;
          assert rep[k + 1] == c;
        }
      }
      ExpandWithoutDollar(rep[1..], matched, before, after);
      assert rep == [rep[0]] + rep[1..];
    }
  }

  /** `s.replace(pat, rep)` as JavaScript evaluates it for a string pattern. */
  function ReplaceAsWritten(s: string, pat: string, rep: string): (r: string)
    ensures Find(s, pat).None? ==> r == s
  {
    match Find(s, pat)
    case None => s
    case Some(i) => s[..i] + Expand(rep, pat, s[..i], s[i + |pat|..]) + s[i + |pat|..]
  }

  /** The first occurrence of `pat` replaced by `rep` verbatim. */
  function ReplaceLiteral(s: string, pat: string, rep: string): (r: string)
    ensures Find(s, pat).None? ==> r == s
    ensures Find(s, pat).Some? ==> |r| == |s| - |pat| + |rep|
    ensures Find(s, pat).Some? ==>
              var i := Find(s, pat).value; r == s[..i] + rep + s[i + |pat|..]
  {
    match Find(s, pat)
    case None => s
    case Some(i) => s[..i] + rep + s[i + |pat|..]
  }

  /** A pattern whose first character is absent from `p` cannot start inside `p`. */
  lemma NoEarlyOccurrence(p: string, pat: string, q: string)
    requires |pat| > 0 && pat[0] !in p
    ensures forall j :: 0 <= j < |p| ==> !OccursAt(p + pat + q, pat, j)
  {
    var s := p + pat + q;
    forall j | 0 <= j < |p| ensures !OccursAt(s, pat, j) {
      assert s[j] == p[j];
      if j + |pat| <= |s| {
        assert s[j..j + |pat|][0] == s[j];
      }
    }
  }

  /** The first occurrence of the placeholder in `p + pat + q` is the one right after `p`. */
  lemma FindPlaceholder(p: string, pat: string, q: string)
    requires forall j :: 0 <= j < |p| ==> !OccursAt(p + pat + q, pat, j)
    ensures Find(p + pat + q, pat) == Some(|p|)
  {
    var s := p + pat + q;
    assert s[|p|..|p| + |pat|] == pat;
    assert OccursAt(s, pat, |p|);
  }

  /**
   * Filling a template: the placeholder is replaced by the value verbatim,
   * so the value can be read back from the filled path.
   */
  lemma ReplaceLiteralFillsPlaceholder(p: string, pat: string, q: string, v: string)
    requires forall j :: 0 <= j < |p| ==> !OccursAt(p + pat + q, pat, j)
    ensures ReplaceLiteral(p + pat + q, pat, v) == p + v + q
    ensures var r := ReplaceLiteral(p + pat + q, pat, v); r[|p|..|p| + |v|] == v
  {
    var s := p + pat + q;
    FindPlaceholder(p, pat, q);
    assert s[..|p|] == p;
    assert s[|p| + |pat|..] == q;
    var r := p + v + q;
    assert r[|p|..|p| + |v|] == v;
  }

  /** Filling a template as JavaScript does: the placeholder is replaced by the expanded value. */
  lemma ReplaceAsWrittenFillsPlaceholder(p: string, pat: string, q: string, v: string)
    requires forall j :: 0 <= j < |p| ==> !OccursAt(p + pat + q, pat, j)
    ensures ReplaceAsWritten(p + pat + q, pat, v) == p + Expand(v, pat, p, q) + q
  {
    var s := p + pat + q;
    FindPlaceholder(p, pat, q);
    assert s[..|p|] == p;
    assert s[|p| + |pat|..] == q;
  }

  /** For a value without `$` the two readings agree. */
  lemma ReplaceAgreesWithoutDollar(s: string, pat: string, rep: string)
    requires '$' !in rep
    ensures ReplaceAsWritten(s, pat, rep) == ReplaceLiteral(s, pat, rep)
  {
    match Find(s, pat)
    case None =>
    case Some(i) => ExpandWithoutDollar(rep, pat, s[..i], s[i + |pat|..]);
  }

  /** A userId of "$&" puts the placeholder itself back into the path as written. */
  lemma DollarAmpersandRestoresPlaceholder()
    ensures ReplaceAsWritten("/v1.0/users/child/{userId}", "{userId}", "$&") == "/v1.0/users/child/{userId}"
    ensures ReplaceLiteral("/v1.0/users/child/{userId}", "{userId}", "$&") == "/v1.0/users/child/$&"
  {
    var p, pat := "/v1.0/users/child/", "{userId}";
    NoEarlyOccurrence(p, pat, "");
    FindPlaceholder(p, pat, "");
    assert p + pat + "" == "/v1.0/users/child/{userId}";
    var s := p + pat + "";
    assert s[..|p|] == p;
    assert s[|p| + |pat|..] == "";
    assert Expand("$&", pat, p, "") == pat + Expand("", pat, p, "");
  }
}
