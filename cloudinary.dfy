/**
 * `extractPublicId(url)`: the public id of a Cloudinary URL, defined by the
 * JavaScript regular expression `\/upload\/(?:v\d+\/)?(.+)\.[^.]+$` (no flags),
 * searched from the left and matched with backtracking.
 */
module Cloudinary {
  import opened Wrappers
  import opened Strings

  const Marker := "/upload/"

  /** The characters `.` does not match without the `s` flag. */
  predicate LineTerminator(c: char) {
    c == '\n' || c == '\r' || c == '\U{2028}' || c == '\U{2029}'
  }

  /** Whether `/upload/` occurs at position `p`. */
  predicate MarkerAt(s: string, p: nat) {
    p + |Marker| <= |s| && s[p..p + |Marker|] == Marker
  }

  /** The position of the last `.` of `s`, if any. */
  function LastDot(s: string): (r: Option<nat>)
    ensures r.Some? ==> r.value < |s| && s[r.value] == '.' && forall k :: r.value < k < |s| ==> s[k] != '.'
    ensures r.None? <==> '.' !in s
    decreases |s|
  {
    if s == [] then None
    else if s[|s| - 1] == '.' then Some(|s| - 1)
    else LastDot(s[..|s| - 1])
  }

  /**
   * Where `(.+)\.[^.]+$` can place its `\.` when the match starts at `j`:
   * a non-empty run of non-terminators, the dot, then a non-empty dot-free rest.
   */
  ghost predicate TailAt(s: string, j: nat, d: nat) {
    j < d && d + 1 < |s| && s[d] == '.' &&
    (forall k :: d < k < |s| ==> s[k] != '.') &&
    (forall k :: j <= k < d ==> !LineTerminator(s[k]))
  }

  /**
   * `(.+)\.[^.]+$` anchored at `j`, with its capture. The dot-free rest forces
   * the dot to be the last one of the string, so at most one placement exists
   * and backtracking cannot find another.
   */
  function TailMatch(s: string, j: nat): (r: Option<string>)
    ensures r.Some? <==> exists d: nat :: TailAt(s, j, d)
    ensures forall d: nat :: TailAt(s, j, d) ==> LastDot(s) == Some(d) && r == Some(s[j..d])
    ensures r.Some? ==> LastDot(s).Some? && TailAt(s, j, LastDot(s).value) && r.value == s[j..LastDot(s).value]
  {
    var last := LastDot(s);
    assert forall d: nat :: TailAt(s, j, d) ==> last == Some(d) by {
      forall d: nat | TailAt(s, j, d) ensures last == Some(d) {
        assert s[d] == '.';
        assert !(last.value < d) && !(d < last.value);
      }
    }
    match last
    case None => None
    case Some(d) =>
      if j < d && d + 1 < |s| && forall k :: j <= k < d ==> !LineTerminator(s[k]) then Some(s[j..d])
      else None
  }

  /** The end of the longest run of ASCII digits starting at `i`. */
  function DigitRunEnd(s: string, i: nat): (m: nat)
    requires i <= |s|
    ensures i <= m <= |s|
    ensures forall k :: i <= k < m ==> IsDigit(s[k])
    ensures m == |s| || !IsDigit(s[m])
    decreases |s| - i
  {
    if i < |s| && IsDigit(s[i]) then DigitRunEnd(s, i + 1) else i
  }

  /**
   * Where the optional `v\d+\/` group ends when it can be taken at `q`. Because
   * `\/` cannot match a digit, only the longest digit run can be followed by it.
   */
  function VersionEnd(s: string, q: nat): (r: Option<nat>)
    requires q <= |s|
    ensures r.Some? ==> q + 3 <= r.value <= |s| && s[q] == 'v' && s[r.value - 1] == '/' &&
                        forall k :: q + 1 <= k < r.value - 1 ==> IsDigit(s[k])
    ensures r.None? ==> forall m :: q + 2 < m < |s| && s[q] == 'v' && s[m] == '/' ==>
                          exists k :: q + 1 <= k < m && !IsDigit(s[k])
  {
    if q < |s| && s[q] == 'v' then
      var m := DigitRunEnd(s, q + 1);
      if m > q + 1 && m < |s| && s[m] == '/' then Some(m + 1)
      else
        assert forall m' :: q + 2 < m' < |s| && s[m'] == '/' ==> exists k :: q + 1 <= k < m' && !IsDigit(s[k]) by {
          forall m' | q + 2 < m' < |s| && s[m'] == '/' ensures exists k :: q + 1 <= k < m' && !IsDigit(s[k]) {
            assert m < m';
          }
        }
        None
    else None
  }

  /**
   * The match that starts at an occurrence of `/upload/`: the greedy group is
   * tried first, and dropped when the rest cannot match after it.
   */
  function MatchAt(s: string, p: nat): (r: Option<string>)
    requires MarkerAt(s, p)
    ensures var q := p + |Marker|;
      var v := VersionEnd(s, q);
      r == if v.Some? && TailMatch(s, v.value).Some? then TailMatch(s, v.value) else TailMatch(s, q)
    ensures r.Some? ==> exists j: nat :: p + |Marker| <= j && TailAt(s, j, LastDot(s).value) &&
                                         r.value == s[j..LastDot(s).value]
  {
    var q := p + |Marker|;
    var v := VersionEnd(s, q);
    if v.Some? && TailMatch(s, v.value).Some? then TailMatch(s, v.value) else TailMatch(s, q)
  }

  /** Whether the regular expression matches with `/upload/` at position `p`. */
  predicate Hit(s: string, p: nat) {
    MarkerAt(s, p) && MatchAt(s, p).Some?
  }

  /**
   * The regular expression searched from `from` on: the position of the
   * leftmost `/upload/` at which the rest matches.
   */
  function FirstMatch(s: string, from: nat): (r: Option<nat>)
    ensures r.Some? ==> from <= r.value && Hit(s, r.value)
    ensures r.Some? ==> forall p: nat :: from <= p < r.value ==> !Hit(s, p)
    ensures r.None? <==> forall p: nat :: from <= p ==> !Hit(s, p)
    decreases |s| - from
  {
    if from + |Marker| > |s| then
      assert forall p: nat :: from <= p ==> !MarkerAt(s, p);
      None
    else if Hit(s, from) then Some(from)
    else
      var r := FirstMatch(s, from + 1);
      r
  }

  /** `extractPublicId`: `match[1]` of the first match, or null; a null or empty url is null. */
  function ExtractPublicId(url: Option<string>): (r: Option<string>)
    ensures !Truthy(url) ==> r.None?
    ensures Truthy(url) ==> (r.None? <==> FirstMatch(url.value, 0).None?)
    ensures Truthy(url) && r.Some? ==> r == MatchAt(url.value, FirstMatch(url.value, 0).value)
  {
    if !Truthy(url) then None
    else
      match FirstMatch(url.value, 0)
      case None => None
      case Some(p) => MatchAt(url.value, p)
  }

  /**
   * A result is the text that starts right after a `/upload/`, or right after
   * the version segment `v<digits>/` that follows it, and stops before the
   * url's last `.`, which is followed by at least one character and preceded
   * by no line terminator in the capture; every earlier `/upload/` could not match.
   */
  lemma ResultShape(url: string)
    requires ExtractPublicId(Some(url)).Some?
    ensures exists p: nat, j: nat :: MarkerAt(url, p) && p + |Marker| <= j && LastDot(url).Some? &&
                                    (j == p + |Marker| || VersionEnd(url, p + |Marker|) == Some(j)) &&
                                    TailAt(url, j, LastDot(url).value) &&
                                    j < LastDot(url).value < |url| - 1 &&
                                    ExtractPublicId(Some(url)).value == url[j..LastDot(url).value] &&
                                    forall p': nat :: p' < p && MarkerAt(url, p') ==> MatchAt(url, p').None?
  {
    var p := FirstMatch(url, 0).value;
    var q := p + |Marker|;
    var v := VersionEnd(url, q);
    var j := if v.Some? && TailMatch(url, v.value).Some? then v.value else q;
    MatchAtCapture(url, p);
    var d := LastDot(url).value;
    forall p': nat | p' < p && MarkerAt(url, p') ensures MatchAt(url, p').None? {
      assert !Hit(url, p');
    }
    assert MarkerAt(url, p) && p + |Marker| <= j && (j == q || v == Some(j)) && TailAt(url, j, d) &&
           j < d < |url| - 1 && ExtractPublicId(Some(url)).value == url[j..d];
  }

  /** Where the capture of a match at `p` starts: after the version group when it is kept, else after the marker. */
  lemma MatchAtCapture(s: string, p: nat)
    requires MarkerAt(s, p) && MatchAt(s, p).Some?
    ensures var q := p + |Marker|;
      var v := VersionEnd(s, q);
      var j := if v.Some? && TailMatch(s, v.value).Some? then v.value else q;
      LastDot(s).Some? && TailAt(s, j, LastDot(s).value) && MatchAt(s, p).value == s[j..LastDot(s).value]
  {
  }

  /** A url without `/upload/` has no public id. */
  lemma NoMarkerNoId(url: string)
    requires forall p: nat :: !MarkerAt(url, p)
    ensures ExtractPublicId(Some(url)) == None
  {
  }

  /** A url with no `.` after its `/upload/` occurrences has no public id. */
  lemma NoDotAfterMarkerNoId(url: string)
    requires forall p: nat, k :: MarkerAt(url, p) && p + |Marker| <= k < |url| ==> url[k] != '.'
    ensures ExtractPublicId(Some(url)) == None
  {
  }

  /** A dot followed by a dot-free rest is the last dot. */
  lemma {:induction false} LastDotBeforeDotFree(a: string, t: string)
    requires '.' !in t
    ensures LastDot(a + "." + t) == Some(|a|)
    decreases |t|
  {
    if t == [] {
      assert a + "." + t == a + ".";
    } else {
      var init := t[..|t| - 1];
      assert (a + "." + t)[..|a + "." + t| - 1] == a + "." + init;
      assert t[|t| - 1] in t;
      assert forall c :: c in init ==> c in t;
      LastDotBeforeDotFree(a, init);
    }
  }

  /** Skipping positions that do not start `/upload/` leaves the search result unchanged. */
  lemma {:induction false} SkipToMarker(s: string, lo: nat, hi: nat)
    requires lo <= hi && forall p: nat :: lo <= p < hi ==> !MarkerAt(s, p)
    ensures FirstMatch(s, lo) == FirstMatch(s, hi)
    decreases hi - lo
  {
    if lo < hi {
      assert !MarkerAt(s, lo);
      SkipToMarker(s, lo + 1, hi);
    }
  }

  /** The url of the helper's documentation, in the pieces the regular expression sees. */
  const DocPrefix := "https://res.cloudinary.com/cloud/image"
  const DocId := "folder/image"
  const DocUrl := DocPrefix + Marker + "v123/" + DocId + "." + "jpg"

  /** An occurrence of `/upload/` starts with a `/` followed by a `u`. */
  lemma MarkerStart(s: string, p: nat)
    ensures MarkerAt(s, p) ==> s[p] == '/' && s[p + 1] == 'u'
  {
    if MarkerAt(s, p) {
      assert s[p..p + |Marker|][0] == s[p] && s[p..p + |Marker|][1] == s[p + 1];
    }
  }

  lemma DocUrlNoEarlierMarker()
    ensures forall p: nat :: p < 38 ==> !MarkerAt(DocUrl, p)
  {
    forall p: nat | p < 38 ensures !MarkerAt(DocUrl, p) {
      MarkerStart(DocUrl, p);
      assert DocUrl[p] == DocPrefix[p];
      assert p < 37 ==> DocUrl[p + 1] == DocPrefix[p + 1];
    }
  }

  lemma DocUrlVersion()
    ensures MarkerAt(DocUrl, 38) && VersionEnd(DocUrl, 46) == Some(51)
  {
    assert DocUrl[38..46] == Marker;
    assert DigitRunEnd(DocUrl, 50) == 50;
    assert DigitRunEnd(DocUrl, 49) == 50;
    assert DigitRunEnd(DocUrl, 48) == 50;
    assert DigitRunEnd(DocUrl, 47) == 50;
  }

  /**
   * Anchored after a prefix `a`, the tail captures a line-terminator-free `b`
   * when a dot and a non-empty dot-free extension follow it.
   */
  lemma TailMatchOf(a: string, b: string, ext: string)
    requires b != "" && ext != "" && '.' !in ext
    requires forall k :: 0 <= k < |b| ==> !LineTerminator(b[k])
    ensures TailMatch(a + b + "." + ext, |a|) == Some(b)
  {
    var s := a + b + "." + ext;
    LastDotBeforeDotFree(a + b, ext);
    assert forall k :: 0 <= k < |b| ==> s[|a| + k] == b[k];
    assert s[|a|..|a| + |b|] == b;
    assert TailAt(s, |a|, |a + b|);
  }

  lemma DocUrlCapture()
    ensures TailMatch(DocUrl, 51) == Some(DocId)
  {
    assert forall k :: 0 <= k < |DocId| ==> !LineTerminator(DocId[k]);
    TailMatchOf(DocPrefix + Marker + "v123/", DocId, "jpg");
  }

  lemma DocUrlText()
    ensures DocUrl == "https://res.cloudinary.com/cloud/image/upload/v123/folder/image.jpg"
  {
  }

  /** The example of the helper's documentation. */
  lemma DocumentedExample()
    ensures ExtractPublicId(Some("https://res.cloudinary.com/cloud/image/upload/v123/folder/image.jpg")) ==
            Some("folder/image")
  {
    DocUrlText();
    DocUrlNoEarlierMarker();
    SkipToMarker(DocUrl, 0, 38);
    DocUrlVersion();
    DocUrlCapture();
    assert MatchAt(DocUrl, 38) == Some(DocId);
    assert FirstMatch(DocUrl, 38) == Some(38);
  }

  /**
   * When nothing can follow the version segment, backtracking drops the group
   * and the segment becomes part of the captured id.
   */
  lemma VersionSegmentBacktracks()
    ensures ExtractPublicId(Some("/upload/v1/.jpg")) == Some("v1/")
  {
    var s := "/upload/v1/.jpg";
    assert MarkerAt(s, 0);
    assert VersionEnd(s, 8) == Some(11) by {
      assert s[8] == 'v' && IsDigit(s[9]) && !IsDigit(s[10]);
      assert DigitRunEnd(s, 9) == 10;
    }
    assert LastDot(s) == Some(11) by {
      assert s[11] == '.';
    }
    assert TailMatch(s, 11) == None;
    assert TailMatch(s, 8) == Some(s[8..11]);
    assert s[8..11] == "v1/";
  }

  /** The url of the search example, in the pieces the regular expression sees. */
  const LeftId := "a" + Marker + "b"
  const LeftUrl := Marker + LeftId + "." + "png"

  lemma LeftUrlText()
    ensures LeftUrl == "/upload/a/upload/b.png" && LeftId == "a/upload/b"
  {
  }

  lemma LeftUrlMatch()
    ensures MarkerAt(LeftUrl, 0) && MatchAt(LeftUrl, 0) == Some(LeftId)
  {
    assert LeftUrl[..|Marker|] == Marker;
    assert VersionEnd(LeftUrl, 8) == None by {
      assert LeftUrl[8] == 'a';
    }
    assert forall k :: 0 <= k < |LeftId| ==> !LineTerminator(LeftId[k]);
    TailMatchOf(Marker, LeftId, "png");
  }

  /** The leftmost occurrence wins even when a later one would also match. */
  lemma LeftmostOccurrenceWins()
    ensures ExtractPublicId(Some("/upload/a/upload/b.png")) == Some("a/upload/b")
  {
    LeftUrlText();
    LeftUrlMatch();
    assert FirstMatch(LeftUrl, 0) == Some(0);
  }
}
