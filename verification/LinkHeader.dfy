/**
 * The commit-count probe's reading of an HTTP `Link` header (the header of
 * section 3 of RFC 8288): the regular expression `page=(\d+)>; rel="last"`,
 * searched for leftmost-first, and `parseInt` of its captured digit run.
 * This is the script's approximation, not a conforming RFC 8288 parser.
 */
module LinkHeader {
  import opened Decimal
  import opened Wrappers

  const Key: string := "page="
  const Tail: string := ">; rel=\"last\""

  /** `t` occurs in `s` at position `i`. */
  predicate OccursAt(s: string, i: nat, t: string) {
    i + |t| <= |s| && s[i..i + |t|] == t
  }

  /**
   * Reference meaning of the pattern: the regular expression matches `s` at
   * position `i` with capture group `d`.
   */
  predicate IsMatch(s: string, i: nat, d: string) {
    |d| > 0 && AllDigits(d) && OccursAt(s, i, Key + d + Tail)
  }

  /** Leftmost match: its position and its captured digit run. */
  datatype Match = Match(at: nat, group: string)

  /** Length of the maximal run of digits in `s` that starts at `j`. */
  function DigitRun(s: string, j: nat): (n: nat)
    requires j <= |s|
    ensures j + n <= |s|
    ensures forall k :: j <= k < j + n ==> IsDigit(s[k])
    ensures j + n == |s| || !IsDigit(s[j + n])
    decreases |s| - j
  {
    if j < |s| && IsDigit(s[j]) then 1 + DigitRun(s, j + 1) else 0
  }

  lemma OccursAtPieces(s: string, i: nat, d: string)
    requires OccursAt(s, i, Key + d + Tail)
    ensures OccursAt(s, i, Key)
    ensures forall q :: i + |Key| <= q < i + |Key| + |d| ==> s[q] == d[q - i - |Key|]
    ensures OccursAt(s, i + |Key| + |d|, Tail)
  {
    var t := Key + d + Tail;
    assert forall k :: 0 <= k < |t| ==> s[i + k] == t[k];
    assert s[i..i + |Key|] == t[..|Key|] == Key;
    assert s[i + |Key| + |d|..i + |Key| + |d| + |Tail|] == t[|Key| + |d|..] == Tail;
  }

  /** In a match, the captured group is exactly the maximal digit run after `page=`. */
  lemma MatchGroupIsRun(s: string, i: nat, d: string)
    requires IsMatch(s, i, d)
    ensures OccursAt(s, i, Key)
    ensures |d| == DigitRun(s, i + |Key|)
    ensures s[i + |Key|..i + |Key| + |d|] == d
    ensures OccursAt(s, i + |Key| + |d|, Tail)
  {
    OccursAtPieces(s, i, d);
    var j := i + |Key|;
    var n := DigitRun(s, j);
    assert !IsDigit(s[j + |d|]) by {
      assert s[j + |d|] == Tail[0];
    }
    assert forall k :: j <= k < j + |d| ==> IsDigit(s[k]) by {
      forall k | j <= k < j + |d| ensures IsDigit(s[k]) {
        assert s[k] == d[k - j];
      }
    }
  }

  /** A non-empty digit run after `page=` followed by the tail is a match. */
  lemma RunIsMatch(s: string, i: nat, n: nat)
    requires OccursAt(s, i, Key) && i + |Key| + n <= |s|
    requires n > 0 && forall k :: i + |Key| <= k < i + |Key| + n ==> IsDigit(s[k])
    requires OccursAt(s, i + |Key| + n, Tail)
    ensures IsMatch(s, i, s[i + |Key|..i + |Key| + n])
  {
  }

  /** The pattern tried at one position, greedily: `\d+` takes the whole digit run. */
  function MatchAt(s: string, i: nat): (r: Option<string>)
    ensures r.Some? ==> IsMatch(s, i, r.value)
    ensures forall d :: IsMatch(s, i, d) ==> r == Some(d)
  {
    if OccursAt(s, i, Key) && 0 < DigitRun(s, i + |Key|)
       && OccursAt(s, i + |Key| + DigitRun(s, i + |Key|), Tail)
    then
      var n := DigitRun(s, i + |Key|);
      RunIsMatch(s, i, n);
      assert forall d :: IsMatch(s, i, d) ==> d == s[i + |Key|..i + |Key| + n] by {
        forall d | IsMatch(s, i, d) ensures d == s[i + |Key|..i + |Key| + n] {
          MatchGroupIsRun(s, i, d);
        }
      }
      Some(s[i + |Key|..i + |Key| + n])
    else
      assert forall d :: !IsMatch(s, i, d) by {
        forall d | IsMatch(s, i, d) ensures false {
          MatchGroupIsRun(s, i, d);
        }
      }
      None
  }

  /** `String.prototype.match` without the global flag: the leftmost match at or after `i`. */
  function FindFrom(s: string, i: nat): (r: Option<Match>)
    ensures r.Some? ==> i <= r.value.at && IsMatch(s, r.value.at, r.value.group)
    ensures r.Some? ==> forall j, d :: i <= j < r.value.at ==> !IsMatch(s, j, d)
    ensures r.None? ==> forall j, d :: i <= j ==> !IsMatch(s, j, d)
    decreases |s| + 1 - i
  {
    if i > |s| then
      None
    else
      match MatchAt(s, i)
      case Some(g) => Some(Match(i, g))
      case None => FindFrom(s, i + 1)
  }

  /** The captured page number of the leftmost match of `page=(\d+)>; rel="last"`, if any. */
  function LastPage(header: string): (r: Option<nat>)
    ensures r.None? <==> forall j, d :: !IsMatch(header, j, d)
    ensures r.Some? ==> exists j: nat, d :: IsMatch(header, j, d) && r.value == Value(d)
                          && forall j': nat, e :: j' < j ==> !IsMatch(header, j', e)
  {
    match FindFrom(header, 0)
    case None => None
    case Some(m) =>
      assert IsMatch(header, m.at, m.group) && forall j': nat, e :: j' < m.at ==> !IsMatch(header, j', e);
      Some(Value(m.group))
  }

  /**
   * A header that carries `page=<n>>; rel="last"`, after text in which
   * `>; rel="last"` does not occur, reads as page `n`, whatever follows it.
   * GitHub's own headers have this shape, with a `rel="next"` link first.
   */
  lemma LastPageOfLink(prefix: string, n: nat, suffix: string)
    requires forall k :: !OccursAt(prefix, k, Tail)
    ensures LastPage(prefix + Key + Digits(n) + Tail + suffix) == Some(n)
  {
    var d := Digits(n);
    var s := prefix + Key + d + Tail + suffix;
    LinkMatches(prefix, d, suffix);
    forall j: nat, e | IsMatch(s, j, e) ensures |prefix| <= j {
      NoEarlierMatch(prefix, d, suffix, j, e);
    }
    Leftmost(s, |prefix|, d);
    ValueOfDigits(n);
  }

  lemma LinkMatches(prefix: string, d: string, suffix: string)
    requires |d| > 0 && AllDigits(d)
    ensures IsMatch(prefix + Key + d + Tail + suffix, |prefix|, d)
  {
  }

  /** A match with no match before it is what the search returns. */
  lemma Leftmost(s: string, p: nat, d: string)
    requires IsMatch(s, p, d)
    requires forall j: nat, e :: IsMatch(s, j, e) ==> p <= j
    ensures FindFrom(s, 0) == Some(Match(p, d))
  {
    var m := FindFrom(s, 0);
    assert m.Some?;
    assert m.value.at == p;
    MatchGroupIsRun(s, p, d);
    MatchGroupIsRun(s, p, m.value.group);
  }

  /** The tail of a match cannot begin before the `>` that follows `d`. */
  lemma NoEarlierTail(prefix: string, d: string, suffix: string, q: nat)
    requires forall k :: !OccursAt(prefix, k, Tail)
    requires AllDigits(d)
    requires OccursAt(prefix + Key + d + Tail + suffix, q, Tail)
    ensures |prefix| + |Key| + |d| <= q
  {
    var s := prefix + Key + d + Tail + suffix;
    var p := |prefix|;
    assert s[q] == '>' by {
      assert s[q] == s[q..q + |Tail|][0];
    }
    assert forall k :: p <= k < p + |Key| + |d| ==> s[k] != '>' by {
      forall k | p <= k < p + |Key| + |d| ensures s[k] != '>' {
        if k < p + |Key| {
          assert s[k] == Key[k - p];
        } else {
          assert s[k] == d[k - p - |Key|];
        }
      }
    }
    assert forall k: nat :: k + |Tail| <= p ==> !OccursAt(s, k, Tail) by {
      forall k: nat | k + |Tail| <= p ensures !OccursAt(s, k, Tail) {
        assert !OccursAt(prefix, k, Tail);
        assert s[k..k + |Tail|] == prefix[k..k + |Tail|];
      }
    }
    assert forall k: nat :: k < p < k + |Tail| ==> !OccursAt(s, k, Tail) by {
      forall k: nat | k < p < k + |Tail| ensures !OccursAt(s, k, Tail) {
        assert s[p] == 'p';
        assert forall i :: 0 < i < |Tail| ==> Tail[i] != 'p';
        if k + |Tail| <= |s| {
          assert s[k..k + |Tail|][p - k] == s[p];
        }
      }
    }
  }

  /** No match can start inside the prefix of `prefix + "page=" + d + ">...`. */
  lemma NoEarlierMatch(prefix: string, d: string, suffix: string, j: nat, e: string)
    requires forall k :: !OccursAt(prefix, k, Tail)
    requires AllDigits(d)
    requires IsMatch(prefix + Key + d + Tail + suffix, j, e)
    ensures |prefix| <= j
  {
    var s := prefix + Key + d + Tail + suffix;
    var p := |prefix|;
    OccursAtPieces(s, j, e);
    NoEarlierTail(prefix, d, suffix, j + |Key| + |e|);
    assert s[p + |Key| - 1] == '=';
  }
}
