/**
 * The image check of the /chat handler: Python's
 * re.match(r"data:(image/.+);base64,(.+)", s), a narrow subset of the
 * "data" URL syntax of RFC 2397, section 3. `.` matches any character but a
 * line feed, both groups are greedy and the match is anchored at the start
 * of `s` only.
 */
module DataUrl {

  import opened Wrappers
  import opened Text

  const Scheme := "data:"
  const ImageType := "image/"
  const Marker := ";base64,"

  predicate NoNewline(s: string) {
    forall i | 0 <= i < |s| :: s[i] != '\n'
  }

  /**
   * What a match with groups `mime` and `payload` means: `s` begins with
   * "data:" + mime + ";base64," + payload, the MIME group is "image/" and at
   * least one more character, the payload is not empty, neither holds a line
   * feed, and the payload cannot be extended (it ends at the end of `s` or
   * at a line feed).
   */
  predicate IsMatch(s: string, mime: string, payload: string) {
    var whole := Scheme + mime + Marker + payload;
    && StartsWith(mime, ImageType) && |mime| > |ImageType| && NoNewline(mime)
    && payload != [] && NoNewline(payload)
    && StartsWith(s, whole)
    && (|s| == |whole| || s[|whole|] == '\n')
  }

  /** The end of the run of non-line-feed characters that starts at `i`. */
  function LineEnd(s: string, i: nat): (e: nat)
    requires i <= |s|
    ensures i <= e <= |s|
    ensures forall j | i <= j < e :: s[j] != '\n'
    ensures e < |s| ==> s[e] == '\n'
    decreases |s| - i
  {
    if i == |s| || s[i] == '\n' then i else LineEnd(s, i + 1)
  }

  /** ";base64," starts at `p` and at least one character other than a line feed follows it. */
  predicate Candidate(s: string, p: int) {
    0 <= p && p + |Marker| < |s| && s[p..p + |Marker|] == Marker && s[p + |Marker|] != '\n'
  }

  /** The largest `p` in [lo, hi) that is a Candidate: the backtracking of the greedy first group. */
  function LastCandidate(s: string, lo: nat, hi: nat): (p: Option<nat>)
    requires lo <= hi
    ensures p.Some? ==> lo <= p.value < hi && Candidate(s, p.value)
    ensures p.Some? ==> forall q | p.value < q < hi :: !Candidate(s, q)
    ensures p.None? ==> forall q | lo <= q < hi :: !Candidate(s, q)
    decreases hi - lo
  {
    if hi == lo then None
    else if Candidate(s, hi - 1) then Some(hi - 1)
    else LastCandidate(s, lo, hi - 1)
  }

  /**
   * The groups (MIME type, base64 payload) of the match, or None when the
   * pattern does not match. The first group's `.+` starts at index 11 and
   * cannot pass a line feed, so ";base64," is searched from index 12 up to
   * the first line feed, from the right.
   */
  function ParseDataUrl(s: string): (r: Option<(string, string)>)
    ensures r.Some? ==> StartsWith(r.value.0, ImageType) && |r.value.0| > |ImageType|
    ensures r.Some? ==> r.value.1 != []
  {
    if !StartsWith(s, Scheme + ImageType) then None
    else
      var e := LineEnd(s, 11);
      if e < 12 then None
      else
        match LastCandidate(s, 12, e)
        case None => None
        case Some(p) =>
          assert s[5..p][..6] == s[..11][5..];
          Some((s[5..p], s[p + 8..LineEnd(s, p + 8)]))
  }

  /** The groups ParseDataUrl returns are a match. */
  lemma ParseDataUrlSound(s: string)
    requires ParseDataUrl(s).Some?
    ensures IsMatch(s, ParseDataUrl(s).value.0, ParseDataUrl(s).value.1)
  {
    var e := LineEnd(s, 11);
    var p := LastCandidate(s, 12, e).value;
    var q := LineEnd(s, p + 8);
    var mime, payload := s[5..p], s[p + 8..q];
    assert s[..11] == Scheme + ImageType;
    assert mime[..6] == s[..11][5..];
    MimeHasNoNewline(s, p, e);
    assert s[..5] == s[..11][..5];
    assert s[p..p + 8] == Marker;
    GroupsSpellPrefix(s, p, q);
  }

  /** The first group, between "data:" and a ";base64," before the first line feed, holds no line feed. */
  lemma MimeHasNoNewline(s: string, p: nat, e: nat)
    requires StartsWith(s, Scheme + ImageType) && 12 <= p < e <= |s|
    requires forall j | 11 <= j < e :: s[j] != '\n'
    ensures NoNewline(s[5..p])
  {
    assert s[..11] == Scheme + ImageType;
    var mime := s[5..p];
    forall i | 0 <= i < |mime| ensures mime[i] != '\n' {
      if i < 6 {
        assert mime[i] == s[..11][5 + i];
      } else {
        assert mime[i] == s[5 + i];
      }
    }
  }

  /** "data:", the first group, ";base64," and the second group, put together, are the start of `s`. */
  lemma GroupsSpellPrefix(s: string, p: nat, q: nat)
    requires 5 <= p && p + 8 <= q <= |s|
    requires s[..5] == Scheme && s[p..p + 8] == Marker
    ensures Scheme + s[5..p] + Marker + s[p + 8..q] == s[..q]
  {
    assert s[..q] == s[..5] + s[5..p] + s[p..p + 8] + s[p + 8..q];
  }

  /**
   * Every match has a MIME group no longer than the one ParseDataUrl
   * returns, and whenever the pattern matches at all ParseDataUrl returns
   * Some: the greedy first group takes the last ";base64," it can.
   */
  lemma ParseDataUrlGreedy(s: string, mime: string, payload: string)
    requires IsMatch(s, mime, payload)
    ensures ParseDataUrl(s).Some?
    ensures |mime| <= |ParseDataUrl(s).value.0|
  {
    var whole := Scheme + mime + Marker + payload;
    var p' := 5 + |mime|;
    assert s[..|whole|] == whole;
    assert s[..11] == Scheme + ImageType by {
      SliceOfPrefix(s, |whole|, 0, 11);
      assert whole[..11] == Scheme + mime[..6];
    }
    assert s[p'..p' + 8] == Marker by {
      SliceOfPrefix(s, |whole|, p', p' + 8);
      MarkerInWhole(mime, payload);
    }
    assert s[p' + 8] == payload[0] by {
      assert s[p' + 8] == s[..|whole|][p' + 8];
      assert whole[p' + 8] == payload[0];
    }
    assert Candidate(s, p');
    var e := LineEnd(s, 11);
    assert forall j | 11 <= j < p' :: s[j] == mime[j - 5] by {
      forall j | 11 <= j < p' ensures s[j] == mime[j - 5] { assert s[j] == whole[j]; }
    }
    assert s[p'] == Marker[0] by { assert whole[p'] == Marker[0]; }
    assert p' < e;
    assert 12 <= p';
  }

  lemma SliceOfPrefix(s: string, n: nat, a: nat, b: nat)
    requires a <= b <= n <= |s|
    ensures s[a..b] == s[..n][a..b]
  {
    assert s[..n][a..b] == s[a..b];
  }

  lemma MarkerInWhole(mime: string, payload: string)
    ensures var p := |Scheme| + |mime|;
            (Scheme + mime + Marker + payload)[p..p + |Marker|] == Marker
  {
    var a := Scheme + mime + Marker;
    var p := |Scheme| + |mime|;
    assert (a + payload)[p..p + |Marker|] == a[p..];
  }

  /** A string that does not match returns None. */
  lemma ParseDataUrlComplete(s: string)
    requires ParseDataUrl(s).None?
    ensures forall mime, payload :: !IsMatch(s, mime, payload)
  {
    forall mime, payload | IsMatch(s, mime, payload) ensures false {
      ParseDataUrlGreedy(s, mime, payload);
    }
  }
}
