/** The image-URL extraction of the feed relay: the first match of the
    JavaScript regular expression `/<img[^>]+src="([^"]+)"/i` in an item's
    description, and its capture group, or `null` when there is none.

    A match is described by three positions of the searched string `s`:
    `img`, where `<img` starts; `src`, where `src="` starts; and `end`, the
    closing `"`. The capture is `s[src + 5..end]`. Among all matches the
    regular-expression engine reports the one that starts leftmost, and,
    because the greedy `[^>]+` gives characters back one at a time from
    the right, the one with the rightmost `src="` for that start. */
module ImageSrc {

  import opened Wrappers

  const IMG_OPEN: string := "<img"
  const SRC_OPEN: string := "src=\""

  /** Case-insensitive comparison of `c` with a lower-case pattern
      character `p` under the `i` flag without the `u` flag. Case folding
      there maps a character to its upper case but never a non-ASCII
      character to an ASCII one, so a lower-case pattern letter matches
      itself and its ASCII upper case only. */
  predicate SameIgnoringCase(c: char, p: char)
  {
    c == p || ('a' <= p <= 'z' && c as int == p as int - 32)
  }

  /** The lower-case pattern `lit` occurs in `s` at `i`, ignoring case. */
  predicate MatchesAt(s: string, i: int, lit: string)
  {
    0 <= i && i + |lit| <= |s| && forall k :: 0 <= k < |lit| ==> SameIgnoringCase(s[i + k], lit[k])
  }

  /** `([^"]+)"` matches from `c`, ending with the quote at `end`. */
  ghost predicate CaptureEnds(s: string, c: int, end: int)
  {
    0 <= c < end < |s| && s[end] == '"' && forall k :: c <= k < end ==> s[k] != '"'
  }

  /** `src="([^"]+)"` matches from `src`, ending at `end`. */
  ghost predicate SrcAt(s: string, src: int, end: int)
  {
    MatchesAt(s, src, SRC_OPEN) && CaptureEnds(s, src + 5, end)
  }

  /** `[^>]+` matches everything from just after `<img` (at `img`) up to `src`. */
  ghost predicate NoCloseBetween(s: string, img: int, src: int)
  {
    0 <= img && img + 4 < src <= |s| && forall k :: img + 4 <= k < src ==> s[k] != '>'
  }

  /** The whole regular expression matches `s[img..end + 1]` with its
      `src="` at `src`. */
  ghost predicate IsMatch(s: string, img: int, src: int, end: int)
  {
    MatchesAt(s, img, IMG_OPEN) && NoCloseBetween(s, img, src) && SrcAt(s, src, end)
  }

  /** The match JavaScript reports: leftmost start, then rightmost `src="`. */
  ghost predicate Chosen(s: string, img: int, src: int, end: int)
  {
    && IsMatch(s, img, src, end)
    && forall img', src', end' :: IsMatch(s, img', src', end') ==>
         img <= img' && (img' == img ==> src' <= src)
  }

  datatype Match = Match(img: nat, src: nat, end: nat)

  /** The index of the first `c` in `s` at or after `i`, or `|s|`. */
  function FirstFrom(s: string, i: nat, c: char): (r: nat)
    requires i <= |s|
    ensures i <= r <= |s|
    ensures forall k :: i <= k < r ==> s[k] != c
    ensures r < |s| ==> s[r] == c
    decreases |s| - i
  {
    if i == |s| || s[i] == c then i else FirstFrom(s, i + 1, c)
  }

  /** Where `([^"]+)"` starting at `c` ends, if it matches there. */
  function CaptureEnd(s: string, c: nat): (r: Option<nat>)
    requires c <= |s|
    ensures r.Some? ==> CaptureEnds(s, c, r.value)
    ensures forall e :: CaptureEnds(s, c, e) ==> r == Some(e)
  {
    var e := FirstFrom(s, c, '"');
    if c < e < |s| then Some(e) else None
  }

  /** The rightmost `src="…"` starting in `[lo, hi]`, answered as the
      pair of its `src` and `end` positions. This is the order in which
      the greedy `[^>]+` tries the places where `src="` could begin. */
  function RightmostSrc(s: string, lo: nat, hi: int): (r: Option<(nat, nat)>)
    ensures r.Some? ==> lo <= r.value.0 <= hi && SrcAt(s, r.value.0, r.value.1)
    ensures r.Some? ==> forall q, e :: r.value.0 < q <= hi && SrcAt(s, q, e) ==> false
    ensures r.None? ==> forall q, e :: lo <= q <= hi ==> !SrcAt(s, q, e)
    decreases hi - lo + 1
  {
    if hi < lo then None
    else if MatchesAt(s, hi, SRC_OPEN) && CaptureEnd(s, hi + 5).Some? then
      Some((hi, CaptureEnd(s, hi + 5).value))
    else RightmostSrc(s, lo, hi - 1)
  }

  /** The match that starts at `img`, when `<img` is there and a match
      from it exists. The `src="` must start after at least one character
      and at or before the first `>` that follows `<img`. */
  function MatchFrom(s: string, img: nat): (r: Option<Match>)
    ensures r.Some? ==> r.value.img == img && IsMatch(s, img, r.value.src, r.value.end)
    ensures r.Some? ==> forall q, e :: IsMatch(s, img, q, e) ==> q <= r.value.src
    ensures r.None? ==> forall q, e :: !IsMatch(s, img, q, e)
  {
    if !MatchesAt(s, img, IMG_OPEN) then None
    else
      var close := FirstFrom(s, img + 4, '>');
      NoMatchPastClose(s, img, close);
      match RightmostSrc(s, img + 5, close)
      case None => None
      case Some((q, e)) => Some(Match(img, q, e))
  }

  /** Every `src="` of a match from `img` begins at or before the first
      `>` after `<img`, and every such place in range satisfies `[^>]+`. */
  lemma NoMatchPastClose(s: string, img: nat, close: nat)
    requires MatchesAt(s, img, IMG_OPEN)
    requires close == FirstFrom(s, img + 4, '>')
    ensures forall q, e :: IsMatch(s, img, q, e) ==> q <= close
    ensures forall q, e :: img + 5 <= q <= close && SrcAt(s, q, e) ==> IsMatch(s, img, q, e)
  {
  }

  /** The leftmost match starting at or after `i`. */
  function FirstMatchFrom(s: string, i: nat): (r: Option<Match>)
    requires i <= |s|
    ensures r.Some? ==> i <= r.value.img && IsMatch(s, r.value.img, r.value.src, r.value.end)
    ensures r.Some? ==> forall p, q, e :: i <= p && IsMatch(s, p, q, e) ==>
                          r.value.img <= p && (p == r.value.img ==> q <= r.value.src)
    ensures r.None? ==> forall p, q, e :: i <= p ==> !IsMatch(s, p, q, e)
    decreases |s| - i
  {
    if i == |s| then None
    else
      match MatchFrom(s, i)
      case Some(m) => Some(m)
      case None => FirstMatchFrom(s, i + 1)
  }

  /** The match `description.match(imgRegex)` reports, or `None` for `null`. */
  function FindMatch(s: string): (r: Option<Match>)
    ensures r.Some? ==> Chosen(s, r.value.img, r.value.src, r.value.end)
    ensures r.None? <==> forall p, q, e :: !IsMatch(s, p, q, e)
  {
    FirstMatchFrom(s, 0)
  }

  /** `imgMatch ? imgMatch[1] : null`: the captured URL of the chosen match. */
  function ImageUrl(s: string): (r: Option<string>)
    ensures r.None? <==> forall p, q, e :: !IsMatch(s, p, q, e)
    ensures r.Some? ==> exists p, q, e :: Chosen(s, p, q, e) && r.value == s[q + 5..e]
  {
    match FindMatch(s)
    case None => None
    case Some(m) => Some(s[m.src + 5..m.end])
  }

  /** The preferred match is unique, so the reported URL is determined. */
  lemma ChosenUnique(s: string, p: int, q: int, e: int, p': int, q': int, e': int)
    requires Chosen(s, p, q, e) && Chosen(s, p', q', e')
    ensures p == p' && q == q' && e == e'
  {
  }

  /** The shape of a reported URL: a non-empty piece of the description
      without `"`, directly after a `src="` (in any case) and directly
      before a `"`, where that `src="` follows an `<img` (in any case) with
      at least one character and no `>` in between. */
  lemma ImageUrlShape(s: string)
    requires ImageUrl(s).Some?
    ensures var u := ImageUrl(s).value;
      && |u| > 0
      && (forall k :: 0 <= k < |u| ==> u[k] != '"')
      && exists img, src ::
           && MatchesAt(s, img, IMG_OPEN)
           && MatchesAt(s, src, SRC_OPEN)
           && img + 4 < src
           && (forall k :: img + 4 <= k < src ==> s[k] != '>')
           && src + 5 + |u| < |s|
           && s[src + 5..src + 5 + |u|] == u
           && s[src + 5 + |u|] == '"'
  {
    var m := FindMatch(s).value;
    var u := ImageUrl(s).value;
    assert u == s[m.src + 5..m.end];
    assert s[m.src + 5..m.src + 5 + |u|] == u;
  }

  /** A lone tag `<img src="U">` yields `U` for every non-empty `U` that
      contains no `"`. */
  lemma SingleTag(u: string)
    requires |u| > 0 && forall k :: 0 <= k < |u| ==> u[k] != '"'
    ensures ImageUrl("<img src=\"" + u + "\">") == Some(u)
  {
    var s := "<img src=\"" + u + "\">";
    var n := |u|;
    assert |s| == n + 12;
    assert forall k :: 0 <= k < n ==> s[10 + k] == u[k];
    assert s[9] == '"' && s[10 + n] == '"' && s[11 + n] == '>';
    assert forall k :: 0 <= k < 9 ==> s[k] != '"';
    assert MatchesAt(s, 0, IMG_OPEN);
    assert MatchesAt(s, 5, SRC_OPEN);
    assert CaptureEnds(s, 10, 10 + n);
    assert IsMatch(s, 0, 5, 10 + n);
    var m := FindMatch(s).value;
    assert m.img == 0;
    assert SRC_OPEN[4] == '"';
    assert MatchesAt(s, m.src, SRC_OPEN);
    assert SameIgnoringCase(s[m.src + 4], SRC_OPEN[4]);
    assert s[m.src + 4] == '"';
    assert m.src == 5;
    assert m.end == 10 + n;
    assert s[10..10 + n] == u;
  }
}
