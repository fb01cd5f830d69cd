/**
 * The companion route's image-tag extraction: a model of the first match of
 * the regular expression `/\[IMAGE\]:\s*(.+?)(?:\n|$)/i` in a reply, and of
 * the reply with that one match removed.
 *
 * Matching semantics, spelled out: the engine tries tag positions from left
 * to right; at a tag, the greedy `\s*` first takes the whole whitespace run
 * (which may include line breaks) and gives characters back one at a time;
 * from each candidate position the lazy `(.+?)` must take at least one
 * character and stop right before a `\n` or at the end of the input, never
 * crossing a line terminator. So the capture from position `q` is exactly
 * the rest of that line, and it succeeds when that rest is non-empty and is
 * ended by `\n` or by the end of the input (not by `\r`, U+2028 or U+2029).
 */
module ImageTag {
  import opened Wrappers
  import opened Text

  const Tag: string := "[IMAGE]:"

  /**
   * Case folding of the `i` flag, as far as the all-ASCII tag can tell: an
   * ASCII lower-case letter matches its upper-case partner, and no other
   * character matches an ASCII letter or punctuation mark of the tag.
   */
  function AsciiUpper(c: char): (u: char)
    ensures 'a' <= c <= 'z' ==> u as int == c as int - 32
    ensures !('a' <= c <= 'z') ==> u == c
  {
    if 'a' <= c <= 'z' then (c as int - 32) as char else c
  }

  /** `\[IMAGE\]:` matches, case-insensitively, at position `p`. */
  predicate TagAt(s: string, p: nat) {
    p + |Tag| <= |s| && forall k :: 0 <= k < |Tag| ==> AsciiUpper(s[p + k]) == Tag[k]
  }

  /** `(.+?)(?:\n|$)` matches from `q`. */
  predicate CaptureFrom(s: string, q: nat)
    requires q <= |s|
  {
    var e := LineEnd(s, q);
    q < e && (e == |s| || s[e] == '\n')
  }

  /** End of the whole match whose capture starts at `q`: past the `\n`, if there is one. */
  function MatchEnd(s: string, q: nat): (end: nat)
    requires q <= |s|
    ensures LineEnd(s, q) <= end <= |s|
    ensures end == |s| || end == LineEnd(s, q) + 1
  {
    var e := LineEnd(s, q);
    if e == |s| then e else e + 1
  }

  /** A complete match: tag at `p`, whitespace up to `q`, and the capture from `q`. */
  predicate ValidMatch(s: string, p: nat, q: nat) {
    TagAt(s, p) && p + |Tag| <= q <= |s| && AllSpace(s, p + |Tag|, q) && CaptureFrom(s, q)
  }

  ghost predicate MatchesAt(s: string, p: nat) {
    exists q :: ValidMatch(s, p, q)
  }

  /** The match the engine reports: the leftmost tag that can match, then the longest `\s*`. */
  ghost predicate IsReportedMatch(s: string, p: nat, q: nat) {
    && ValidMatch(s, p, q)
    && (forall p': nat :: p' < p ==> !MatchesAt(s, p'))
    && (forall q' :: q < q' ==> !ValidMatch(s, p, q'))
  }

  /** There is at most one reported match. */
  lemma ReportedMatchUnique(s: string, p1: nat, q1: nat, p2: nat, q2: nat)
    requires IsReportedMatch(s, p1, q1) && IsReportedMatch(s, p2, q2)
    ensures p1 == p2 && q1 == q2
  {
    assert MatchesAt(s, p1) && MatchesAt(s, p2);
  }

  /** A whitespace prefix starting at `lo` never reaches past the end of the whitespace run. */
  lemma SpacesStayInRun(s: string, lo: nat, q: nat)
    requires lo <= q <= |s| && AllSpace(s, lo, q)
    ensures q <= SpaceRunEnd(s, lo)
  {
    var w := SpaceRunEnd(s, lo);
    if w < q {
      assert false;
    }
  }

  /** Backtracking `\s*`: the largest candidate in `[lo, q]` from which the capture matches. */
  function BacktrackSpaces(s: string, lo: nat, q: nat): (r: Option<nat>)
    requires lo <= q <= |s|
    ensures r.Some? ==> lo <= r.value <= q && CaptureFrom(s, r.value)
    ensures r.Some? ==> forall q' :: r.value < q' <= q ==> !CaptureFrom(s, q')
    ensures r.None? ==> forall q' :: lo <= q' <= q ==> !CaptureFrom(s, q')
    decreases q - lo
  {
    if CaptureFrom(s, q) then Some(q)
    else if q == lo then None
    else BacktrackSpaces(s, lo, q - 1)
  }

  /** A match of the pattern as a whole: where it starts and ends, and where its capture lies. */
  datatype TagMatch = TagMatch(start: nat, capStart: nat, capEnd: nat, end: nat)

  /** The match the engine finds when it tries the tag at `p`; `MatchAtSpec` states what it is. */
  function MatchAt(s: string, p: nat): (r: Option<TagMatch>)
    ensures r.Some? ==> r.value.start == p
  {
    if !TagAt(s, p) then None
    else
      var lo := p + |Tag|;
      match BacktrackSpaces(s, lo, SpaceRunEnd(s, lo))
      case None => None
      case Some(q) => Some(TagMatch(p, q, LineEnd(s, q), MatchEnd(s, q)))
  }

  /**
   * Trying the tag at `p` finds a match exactly when one exists there, and
   * then it is the one with the longest whitespace run.
   */
  lemma MatchAtSpec(s: string, p: nat)
    ensures MatchAt(s, p).None? <==> !MatchesAt(s, p)
    ensures MatchAt(s, p).Some? ==>
              var m := MatchAt(s, p).value;
              && ValidMatch(s, p, m.capStart)
              && (forall q' :: m.capStart < q' ==> !ValidMatch(s, p, q'))
              && m.capEnd == LineEnd(s, m.capStart) && m.end == MatchEnd(s, m.capStart)
  {
    if TagAt(s, p) {
      var lo: nat := p + |Tag|;
      var w := SpaceRunEnd(s, lo);
      match BacktrackSpaces(s, lo, w)
      case None =>
        forall q: nat | ValidMatch(s, p, q)
          ensures false
        {
          SpacesStayInRun(s, lo, q);
        }
      case Some(q) =>
        assert AllSpace(s, lo, q);
        assert ValidMatch(s, p, q);
        forall q': nat | q < q' && ValidMatch(s, p, q')
          ensures false
        {
          SpacesStayInRun(s, lo, q');
        }
    }
  }

  /** Scanning `tryAt` from position `p` up to `n`: the first attempt that finds a match. */
  function FirstMatchFrom(tryAt: nat -> Option<TagMatch>, p: nat, n: nat): (r: Option<TagMatch>)
    requires p <= n
    ensures r.None? ==> forall p' :: p <= p' <= n ==> tryAt(p').None?
    ensures r.Some? ==> exists k :: p <= k <= n && tryAt(k) == r && forall p' :: p <= p' < k ==> tryAt(p').None?
    decreases n - p
  {
    if tryAt(p).Some? then tryAt(p)
    else if p == n then None
    else FirstMatchFrom(tryAt, p + 1, n)
  }

  /** `reply.match(pattern)`: the reported match, or none when no tag position can match. */
  function FindImageTag(s: string): (r: Option<TagMatch>)
    ensures r.None? <==> forall p: nat, q: nat :: !ValidMatch(s, p, q)
    ensures r.Some? ==> IsReportedMatch(s, r.value.start, r.value.capStart)
    ensures r.Some? ==>
              r.value.capEnd == LineEnd(s, r.value.capStart) && r.value.end == MatchEnd(s, r.value.capStart)
  {
    var tryAt := (p: nat) => MatchAt(s, p);
    var r := FirstMatchFrom(tryAt, 0, |s|);
    assert r.None? ==> forall p: nat, q: nat :: !ValidMatch(s, p, q) by {
      if r.None? {
        forall p: nat, q: nat | ValidMatch(s, p, q)
          ensures false
        {
          assert tryAt(p) == MatchAt(s, p);
          MatchAtSpec(s, p);
        }
      }
    }
    assert r.Some? ==> forall p': nat :: p' < r.value.start ==> !MatchesAt(s, p') by {
      if r.Some? {
        var k :| 0 <= k <= |s| && tryAt(k) == r && forall p' :: 0 <= p' < k ==> tryAt(p').None?;
        assert r.value.start == k;
        forall p': nat | p' < k
          ensures !MatchesAt(s, p')
        {
          assert tryAt(p') == MatchAt(s, p');
          MatchAtSpec(s, p');
        }
      }
    }
    if r.Some? then
      MatchAtSpec(s, r.value.start);
      r
    else r
  }

  /** The visible text and the image prompt the companion route derives from a reply. */
  datatype Extraction = Extraction(text: string, imagePrompt: string)

  /**
   * With no match the reply is shown whole and the prompt is empty; the
   * prompt is always a single trimmed line. `ExtractAtReportedMatch` states
   * the result when there is a match.
   */
  function ExtractImagePrompt(reply: string): (x: Extraction)
    ensures (forall p: nat, q: nat :: !ValidMatch(reply, p, q)) ==> x == Extraction(reply, "")
    ensures NoLineTerminator(x.imagePrompt)
    ensures |x.imagePrompt| > 0 ==> !IsJsSpace(x.imagePrompt[0]) && !IsJsSpace(x.imagePrompt[|x.imagePrompt| - 1])
  {
    match FindImageTag(reply)
    case None => Extraction(reply, "")
    case Some(m) =>
      var line := reply[m.capStart..m.capEnd];
      TrimKeepsNoLineTerminator(line);
      Extraction(Trim(reply[..m.start] + reply[m.end..]), Trim(line))
  }

  /**
   * With a match, the prompt is the trimmed capture and the visible text is
   * the reply with that one match cut out, trimmed.
   */
  lemma ExtractAtReportedMatch(reply: string, p: nat, q: nat)
    requires IsReportedMatch(reply, p, q)
    ensures q <= LineEnd(reply, q) <= MatchEnd(reply, q) <= |reply|
    ensures ExtractImagePrompt(reply)
         == Extraction(Trim(reply[..p] + reply[MatchEnd(reply, q)..]), Trim(reply[q..LineEnd(reply, q)]))
  {
    var r := FindImageTag(reply);
    assert r.Some?;
    ReportedMatchUnique(reply, p, q, r.value.start, r.value.capStart);
  }
}
