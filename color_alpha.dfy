/** The colour helper of app/card-templates.tsx: `color.replace(/[^,]+(?=\))/, alpha)`.

    The regular expression matches a non-empty run of non-comma characters that is
    immediately followed by `)`. `replace` without the global flag rewrites only the
    first match, and JavaScript's backtracking finds it at the leftmost start position
    that has one, taking the longest run there (the greedy `+`). For `rgba(r, g, b, a)`
    that is the text after the last comma, the alpha component; a hex colour holds no
    `)` and comes back unchanged. */
module ColorAlpha {
  import opened Wrappers

  /** No comma in `s[i..j]`. */
  ghost predicate CommaFree(s: string, i: int, j: int)
    requires 0 <= i <= j <= |s|
  {
    forall k :: i <= k < j ==> s[k] != ','
  }

  /** `s[i..j]` is a match of `[^,]+(?=\))`: non-empty, comma-free, and followed by `)`. */
  ghost predicate IsMatch(s: string, i: int, j: int) {
    0 <= i < j < |s| && s[j] == ')' && CommaFree(s, i, j)
  }

  /** The match JavaScript's `replace` rewrites: leftmost start, then longest run. */
  ghost predicate IsFirstMatch(s: string, i: int, j: int) {
    && IsMatch(s, i, j)
    && (forall i', j' :: IsMatch(s, i', j') ==> i <= i')
    && (forall j' :: IsMatch(s, i, j') ==> j' <= j)
  }

  ghost predicate HasMatch(s: string) {
    exists i, j :: IsMatch(s, i, j)
  }

  /** The end of the comma-free run that starts at `i`: the next comma, or the end. */
  function RunEnd(s: string, i: nat): (e: nat)
    requires i <= |s|
    ensures i <= e <= |s| && CommaFree(s, i, e)
    ensures e < |s| ==> s[e] == ','
    decreases |s| - i
  {
    if i == |s| || s[i] == ',' then i else RunEnd(s, i + 1)
  }

  /** The last `)` in `s[lo..hi]`, if any. */
  function LastCloseIn(s: string, lo: nat, hi: nat): (r: Option<nat>)
    requires lo <= hi <= |s|
    ensures r.Some? ==> lo <= r.value < hi && s[r.value] == ')'
    ensures r.Some? ==> forall k :: r.value < k < hi ==> s[k] != ')'
    ensures r.None? ==> forall k :: lo <= k < hi ==> s[k] != ')'
    decreases hi - lo
  {
    if hi == lo then None
    else if s[hi - 1] == ')' then Some(hi - 1)
    else LastCloseIn(s, lo, hi - 1)
  }

  /** The end of the longest match starting at `i`, trying lengths from longest down as
      the greedy `+` backtracks. */
  function LongestMatchAt(s: string, i: nat): (r: Option<nat>)
    requires i < |s|
    ensures r.Some? ==> IsMatch(s, i, r.value)
    ensures r.Some? ==> forall j :: IsMatch(s, i, j) ==> j <= r.value
    ensures r.None? ==> forall j :: !IsMatch(s, i, j)
  {
    if s[i] == ',' then None
    else
      var e := RunEnd(s, i);
      assert forall j :: e <= j ==> !IsMatch(s, i, j) by {
        forall j | e <= j ensures !IsMatch(s, i, j) {
          if j < |s| && e < j { assert s[e] == ','; }
        }
      }
      LastCloseIn(s, i + 1, e)
  }

  /** The first match with start at or after `from`, scanning starts left to right. */
  function FirstMatchFrom(s: string, from: nat): (r: Option<(nat, nat)>)
    requires from <= |s|
    ensures r.Some? ==> IsMatch(s, r.value.0, r.value.1) && from <= r.value.0
    ensures r.Some? ==> forall i', j' :: IsMatch(s, i', j') && from <= i' ==> r.value.0 <= i'
    ensures r.Some? ==> forall j' :: IsMatch(s, r.value.0, j') ==> j' <= r.value.1
    ensures r.None? ==> forall i', j' :: from <= i' ==> !IsMatch(s, i', j')
    decreases |s| - from
  {
    if from == |s| then None
    else
      match LongestMatchAt(s, from)
      case Some(j) => Some((from, j))
      case None => FirstMatchFrom(s, from + 1)
  }

  /** `color.replace(/[^,]+(?=\))/, alpha)`. JavaScript expands `$&`, `` $` ``, `$'` and
      `$$` in a replacement string; the model inserts `alpha` verbatim, which is the same
      for every alpha without `$` (the cards pass "0.2", "0.3" and "0.7"). */
  function ReplaceAlpha(color: string, alpha: string): (r: string)
    ensures !HasMatch(color) ==> r == color
    ensures HasMatch(color) ==> exists i, j :: IsFirstMatch(color, i, j)
    ensures forall i, j :: IsFirstMatch(color, i, j) ==> r == color[..i] + alpha + color[j..]
  {
    match FirstMatchFrom(color, 0)
    case None => color
    case Some((i, j)) =>
      assert IsFirstMatch(color, i, j);
      assert forall i', j' :: IsFirstMatch(color, i', j') ==> i' == i && j' == j;
      color[..i] + alpha + color[j..]
  }

  /** A colour with no `)` (every hex colour) is returned unchanged. */
  lemma NoCloseParenUnchanged(color: string, alpha: string)
    requires ')' !in color
    ensures ReplaceAlpha(color, alpha) == color
  {
    assert !HasMatch(color) by {
      forall i, j ensures !IsMatch(color, i, j) {
        if 0 <= j < |color| { assert color[j] in color; }
      }
    }
  }

  /** On `head,component)` whose last component holds no comma or `)`, the helper
      replaces exactly that component: `rgba(219, 234, 254, 1)` becomes
      `rgba(219, 234, 254,0.3)` (the space after the comma belongs to the component). */
  lemma ReplacesLastComponent(head: string, component: string, alpha: string)
    requires ')' !in head
    requires component != [] && ',' !in component && ')' !in component
    ensures ReplaceAlpha(head + "," + component + ")", alpha) == head + "," + alpha + ")"
  {
    var s := head + "," + component + ")";
    var i, j := |head| + 1, |s| - 1;
    assert s[|head|] == ',';
    assert s[j] == ')';
    assert forall k :: i <= k < j ==> s[k] == component[k - i];
    assert IsMatch(s, i, j);
    forall i', j' ensures IsMatch(s, i', j') ==> i <= i' && j' == j {
      if 0 <= j' < |head| { assert s[j'] == head[j'] && head[j'] in head; }
      if i < j' < j { assert s[j'] == component[j' - i] && component[j' - i] in component; }
      if 0 <= i' <= |head| < j' <= |s| { assert !CommaFree(s, i', j'); }
    }
    assert IsFirstMatch(s, i, j);
    assert s[..i] == head + ",";
    assert s[j..] == ")";
  }

  /** Run ends and comma-freedom carry over when a comma-free run is swapped for another. */
  lemma CommaFreeSplice(s: string, i: int, j: int, alpha: string, k: int)
    requires IsMatch(s, i, j) && alpha != [] && ',' !in alpha
    requires i <= k <= |s[..i] + alpha + s[j..]|
    ensures var t := s[..i] + alpha + s[j..];
            k >= i + |alpha| ==> (CommaFree(t, i, k) <==> CommaFree(s, i, k - |alpha| + (j - i)))
  {
    var t := s[..i] + alpha + s[j..];
    var d := j - i - |alpha|;
    if k >= i + |alpha| {
      assert forall m :: i <= m < i + |alpha| ==> t[m] == alpha[m - i];
      assert forall m :: i + |alpha| <= m < |t| ==> t[m] == s[m + d];
      forall m | i <= m < i + |alpha| ensures t[m] != ',' {
        assert alpha[m - i] in alpha;
      }
      if CommaFree(t, i, k) {
        forall m | i <= m < k + d ensures s[m] != ',' {
          if m >= j { assert t[m - d] == s[m]; }
        }
      }
      if CommaFree(s, i, k + d) {
        forall m | i <= m < k ensures t[m] != ',' {
          if m >= i + |alpha| { assert t[m] == s[m + d]; }
        }
      }
    }
  }

  /** Applying the helper a second time with the same alpha changes nothing, because the
      first match of the result is the alpha just written. */
  lemma ReplaceAlphaIdempotent(color: string, alpha: string)
    requires alpha != [] && ',' !in alpha
    ensures ReplaceAlpha(ReplaceAlpha(color, alpha), alpha) == ReplaceAlpha(color, alpha)
  {
    if !HasMatch(color) {
      return;
    }
    var r := FirstMatchFrom(color, 0);
    var i, j := r.value.0, r.value.1;
    assert IsFirstMatch(color, i, j);
    var t := color[..i] + alpha + color[j..];
    var d := j - i - |alpha|;
    var j2 := i + |alpha|;
    assert ReplaceAlpha(color, alpha) == t;
    assert forall m :: 0 <= m < i ==> t[m] == color[m];
    assert forall m :: i + |alpha| <= m < |t| ==> t[m] == color[m + d];
    assert t[j2] == ')';
    CommaFreeSplice(color, i, j, alpha, j2);
    assert IsMatch(t, i, j2);
    // No match of t starts before i: the prefix is color's, and every start before i
    // in color is cut off from the first `)` by a comma.
    forall i', j' | 0 <= i' < i ensures !IsMatch(t, i', j') {
      assert !IsMatch(color, i', j);
      assert !CommaFree(color, i', j);
      var c :| i' <= c < j && color[c] == ',';
      assert c < i;
      assert t[c] == ',';
      if i' < j' <= c {
        assert !IsMatch(color, i', j');
        assert CommaFree(t, i', j') ==> CommaFree(color, i', j');
      }
    }
    // No match of t at i runs past the alpha: it would give a longer match in color.
    forall j' | j2 < j' < |t| ensures !IsMatch(t, i, j') {
      CommaFreeSplice(color, i, j, alpha, j');
      assert t[j'] == color[j' + d];
      assert !IsMatch(color, i, j' + d);
    }
    assert IsFirstMatch(t, i, j2);
    assert t[..i] + alpha + t[j2..] == t by {
      assert t[..i] == color[..i];
      assert t[j2..] == color[j..];
    }
  }
}
