/** `extractVideoId` (src/components/VideoAnalyzer.tsx:60-64): the match of
    the regular expression

      (?:youtube\.com\/(?:[^\/]+\/.+\/|(?:v|e(?:mbed)?)\/|.*[?&]v=)|youtu\.be\/)([^"&?\/\s]{11})

    against a URL, written out as the search a backtracking engine performs:
    the leftmost start position wins; at one start the alternatives are tried
    in the order written; a greedy `.*` or `.+` tries its longest extent first
    and gives characters back one at a time. The result is the captured
    11-character group, or None when there is no match. */
module VideoId {
  import opened Text
  import opened AnalysisTypes

  /** A character of the class `[^"&?\/\s]`. */
  predicate IsIdChar(c: char) {
    c != '"' && c != '&' && c != '?' && c != '/' && !IsSpace(c)
  }

  /** Eleven characters of that class: what the capture group matches. */
  predicate IsVideoId(s: string) {
    |s| == 11 && forall i :: 0 <= i < |s| ==> IsIdChar(s[i])
  }

  /** The capture group matches at index `p` of `url`. */
  predicate IdAt(url: string, p: int) {
    0 <= p && p + 11 <= |url| && IsVideoId(url[p..p + 11])
  }

  /** The end of the run of characters `.` can match from index `from` on:
      the first line terminator at or after `from`, or the end of `url`. */
  function RunEnd(url: string, from: nat): (e: nat)
    requires from <= |url|
    ensures from <= e <= |url|
    ensures forall k :: from <= k < e ==> !IsLineTerminator(url[k])
    ensures e == |url| || IsLineTerminator(url[e])
    decreases |url| - from
  {
    if from == |url| || IsLineTerminator(url[from]) then from else RunEnd(url, from + 1)
  }

  /** The first '/' at or after index `from`, if any. */
  function SlashFrom(url: string, from: nat): (k: Option<nat>)
    requires from <= |url|
    ensures k.Some? ==> from <= k.value < |url| && url[k.value] == '/'
    ensures k.Some? ==> forall m :: from <= m < k.value ==> url[m] != '/'
    ensures k.None? ==> forall m :: from <= m < |url| ==> url[m] != '/'
    decreases |url| - from
  {
    if from == |url| then None
    else if url[from] == '/' then Some(from)
    else SlashFrom(url, from + 1)
  }

  /** The two alternatives that end in a greedy `.+` or `.*`. */
  datatype Greedy = Nested | Query

  /** Where a greedy wildcard may stop so that the rest matches: for
      `[^\/]+\/.+\/`, a '/' at `p` followed by an id; for `.*[?&]v=`, a '?'
      or '&' at `p` followed by "v=" and an id. */
  predicate Stop(g: Greedy, url: string, p: int) {
    0 <= p < |url| &&
    match g
    case Nested => url[p] == '/' && IdAt(url, p + 1)
    case Query => (url[p] == '?' || url[p] == '&') && OccursAt(url, "v=", p + 1) && IdAt(url, p + 3)
  }

  /** The largest stop in `[lo, hi]`: the one backtracking from the longest
      extent of the wildcard meets first. */
  function LastStop(g: Greedy, url: string, lo: int, hi: int): (r: Option<int>)
    ensures r.Some? ==> lo <= r.value <= hi && Stop(g, url, r.value)
    ensures r.Some? ==> forall p :: r.value < p <= hi ==> !Stop(g, url, p)
    ensures r.None? ==> forall p :: lo <= p <= hi ==> !Stop(g, url, p)
    decreases hi - lo
  {
    if hi < lo then None
    else if Stop(g, url, hi) then Some(hi)
    else LastStop(g, url, lo, hi - 1)
  }

  /** The alternative `[^\/]+\/.+\/` from index `j`; the result is the index
      of the captured id. `[^\/]+` can only end at the first '/', and `.+`
      needs at least one character and no line terminator. */
  function NestedAlt(url: string, j: nat): (r: Option<int>)
    requires j <= |url|
    ensures r.Some? ==> IdAt(url, r.value)
  {
    match SlashFrom(url, j)
    case None => None
    case Some(k) =>
      if k == j then None
      else
        match LastStop(Nested, url, k + 2, RunEnd(url, k + 1))
        case None => None
        case Some(p) => Some(p + 1)
  }

  /** The alternative `.*[?&]v=` from index `j`. */
  function QueryAlt(url: string, j: nat): (r: Option<int>)
    requires j <= |url|
    ensures r.Some? ==> IdAt(url, r.value)
  {
    match LastStop(Query, url, j, RunEnd(url, j))
    case None => None
    case Some(q) => Some(q + 3)
  }

  /** The whole pattern tried at start index `i`; the result is the index of
      the captured id. */
  function MatchAt(url: string, i: nat): (r: Option<int>)
    requires i <= |url|
    ensures r.Some? ==> IdAt(url, r.value)
  {
    if OccursAt(url, "youtube.com/", i) then
      var j := i + 12;
      var nested := NestedAlt(url, j);
      if nested.Some? then nested
      else if OccursAt(url, "v/", j) && IdAt(url, j + 2) then Some(j + 2)
      else if OccursAt(url, "embed/", j) && IdAt(url, j + 6) then Some(j + 6)
      else if OccursAt(url, "e/", j) && IdAt(url, j + 2) then Some(j + 2)
      else QueryAlt(url, j)
    else if OccursAt(url, "youtu.be/", i) && IdAt(url, i + 9) then Some(i + 9)
    else None
  }

  /** The leftmost start index at or after `i` where the pattern matches. */
  function FirstMatch(url: string, i: nat): (r: Option<int>)
    requires i <= |url|
    ensures r.Some? ==> IdAt(url, r.value)
    ensures r.Some? ==> exists k :: i <= k <= |url| && MatchAt(url, k) == r
    ensures r.None? ==> forall k :: i <= k <= |url| ==> MatchAt(url, k).None?
    decreases |url| - i
  {
    var here := MatchAt(url, i);
    if here.Some? then here
    else if i == |url| then None
    else FirstMatch(url, i + 1)
  }

  /** `url.match(regex)`, reduced to its capture group: an 11-character
      identifier of the allowed characters that occurs in `url`, or None
      exactly when the pattern matches at no position. */
  function ExtractVideoId(url: string): (r: Option<string>)
    ensures r.Some? ==> IsVideoId(r.value) && exists p :: OccursAt(url, r.value, p)
    ensures r.None? <==> forall k :: 0 <= k <= |url| ==> MatchAt(url, k).None?
  {
    match FirstMatch(url, 0)
    case None => None
    case Some(p) =>
      assert OccursAt(url, url[p..p + 11], p);
      Some(url[p..p + 11])
  }

  /** When the pattern fails at every index before `k` and matches at `k`,
      the search returns the match at `k`. */
  lemma {:induction false} FirstMatchIs(url: string, i: nat, k: nat)
    requires i <= k <= |url|
    requires forall m :: i <= m < k ==> MatchAt(url, m).None?
    requires MatchAt(url, k).Some?
    ensures FirstMatch(url, i) == MatchAt(url, k)
    decreases k - i
  {
    if i < k {
      FirstMatchIs(url, i + 1, k);
    }
  }

  /** Both literals the pattern can start with begin with 'y', so the pattern
      cannot match where the URL has another character. */
  lemma NoMatchWithoutY(url: string, i: nat)
    requires i < |url| && url[i] != 'y'
    ensures MatchAt(url, i).None?
  {
  }

  /** When no character before index `k` is a 'y' and the pattern matches at
      `k`, the identifier is the one captured at `k`. */
  lemma ExtractAfterNoY(url: string, k: nat, p: int)
    requires k <= |url| && 'y' !in url[..k]
    requires MatchAt(url, k) == Some(p)
    ensures ExtractVideoId(url) == Some(url[p..p + 11])
  {
    forall m | 0 <= m < k
      ensures MatchAt(url, m).None?
    {
      assert url[m] == url[..k][m];
      NoMatchWithoutY(url, m);
    }
    FirstMatchIs(url, 0, k);
  }

  /** An identifier contains no '/', '?' or '&' and no line terminator. */
  lemma IdCharFacts(url: string, p: int)
    requires IdAt(url, p)
    ensures forall m :: p <= m < p + 11 ==> IsIdChar(url[m])
    ensures forall m :: p <= m < p + 11 ==> !IsLineTerminator(url[m])
  {
    forall m | p <= m < p + 11
      ensures IsIdChar(url[m])
    {
      assert url[m] == url[p..p + 11][m - p];
    }
  }

  /** The identifier of a watch URL: the greedy `.*[?&]v=` can only stop at
      the '?' before "v=", since the identifier holds no '?' or '&'. */
  lemma WatchQuery(url: string, id: string)
    requires IsVideoId(id) && url == "https://www.youtube.com/watch?v=" + id
    ensures QueryAlt(url, 24) == Some(32)
  {
    assert url[32..43] == id;
    IdCharFacts(url, 32);
    assert url[24..32] == "watch?v=";
    assert forall m :: 24 <= m < 32 ==> !IsLineTerminator(url[m]);
    assert RunEnd(url, 24) == 43;
    assert url[30..32] == "v=";
    assert Stop(Query, url, 29);
    assert forall p :: 29 < p <= 43 ==> !Stop(Query, url, p);
  }

  /** In a watch URL the alternative `[^\/]+\/.+\/` fails: no '/' follows
      "youtube.com/". */
  lemma WatchNotNested(url: string, id: string)
    requires IsVideoId(id) && url == "https://www.youtube.com/watch?v=" + id
    ensures NestedAlt(url, 24).None?
  {
    assert url[32..43] == id;
    IdCharFacts(url, 32);
    assert url[24..32] == "watch?v=";
    assert forall m :: 24 <= m < 43 ==> url[m] != '/';
  }

  /** At the start of "youtube.com/" the pattern captures the identifier
      after "v=". */
  lemma WatchMatch(url: string, id: string)
    requires IsVideoId(id) && url == "https://www.youtube.com/watch?v=" + id
    ensures MatchAt(url, 12) == Some(32)
  {
    var pre := "https://www.youtube.com/watch?v=";
    assert url[..32] == pre;
    assert url[12..24] == pre[12..24] == "youtube.com/";
    WatchNotNested(url, id);
    assert url[24] == 'w';
    WatchQuery(url, id);
  }

  /** The canonical watch URL yields its `v` parameter. */
  lemma WatchUrl(id: string)
    requires IsVideoId(id)
    ensures ExtractVideoId("https://www.youtube.com/watch?v=" + id) == Some(id)
  {
    var url := "https://www.youtube.com/watch?v=" + id;
    WatchMatch(url, id);
    assert url[..12] == "https://www.";
    ExtractAfterNoY(url, 12, 32);
    assert url[32..43] == id;
  }

  /** In an embed URL the alternative `[^\/]+\/.+\/` fails: after the '/'
      that ends "embed" no further '/' follows. */
  lemma EmbedNotNested(url: string, id: string)
    requires IsVideoId(id) && url == "https://www.youtube.com/embed/" + id
    ensures NestedAlt(url, 24).None?
  {
    assert url[30..41] == id;
    IdCharFacts(url, 30);
    assert url[24..30] == "embed/";
    assert forall m :: 24 <= m < 29 ==> url[m] != '/';
    assert url[29] == '/';
    assert SlashFrom(url, 24) == Some(29);
    assert forall p :: 31 <= p <= |url| ==> !Stop(Nested, url, p);
  }

  /** The embed URL yields the path segment after "embed/". */
  lemma EmbedUrl(id: string)
    requires IsVideoId(id)
    ensures ExtractVideoId("https://www.youtube.com/embed/" + id) == Some(id)
  {
    var url := "https://www.youtube.com/embed/" + id;
    assert url[30..41] == id;
    assert url[12..24] == "youtube.com/";
    assert url[24..30] == "embed/";
    EmbedNotNested(url, id);
    assert url[24] == 'e' && url[25] == 'm';
    assert !OccursAt(url, "v/", 24);
    assert MatchAt(url, 12) == Some(30);
    assert url[..12] == "https://www.";
    ExtractAfterNoY(url, 12, 30);
  }

  /** The shortened URL yields the path after "youtu.be/". */
  lemma ShortUrl(id: string)
    requires IsVideoId(id)
    ensures ExtractVideoId("https://youtu.be/" + id) == Some(id)
  {
    var url := "https://youtu.be/" + id;
    assert url[17..28] == id;
    assert url[8..17] == "youtu.be/";
    assert url[13] == '.';
    assert !OccursAt(url, "youtube.com/", 8);
    assert MatchAt(url, 8) == Some(17);
    assert url[..8] == "https://";
    ExtractAfterNoY(url, 8, 17);
  }

  /** A string that is not a video URL yields no identifier. */
  lemma NotAUrl()
    ensures ExtractVideoId("not a url") == None
  {
    var url := "not a url";
    forall k | 0 <= k <= |url|
      ensures MatchAt(url, k).None?
    {
      if k < |url| {
        NoMatchWithoutY(url, k);
      }
    }
  }
}
