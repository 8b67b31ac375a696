/** The URL normalisation both ch2 servers apply to `req.url` before routing:
    `req.url.replace(/\/?(?:\?.*)?$/, '').toLowerCase()`.

    The replace is non-global, so it removes only the leftmost match of the
    pattern. The pattern is modelled here at the level of the regular
    expression itself (`MatchesAt`), for every input string, including those
    holding line terminators, which `.` does not match. The plain-words
    description ("cut at the first '?', and one '/' before it; otherwise drop
    one trailing '/'") is then proved about it for URLs without line
    terminators. Lowercasing covers the ASCII letters only. */
module UrlNormalize {

  /** The characters that `.` in a JavaScript regular expression does not match. */
  predicate IsLineTerminator(c: char) {
    c == '\n' || c == '\r' || c == '\U{2028}' || c == '\U{2029}'
  }

  predicate NoLineTerminators(s: string) {
    forall k :: 0 <= k < |s| ==> !IsLineTerminator(s[k])
  }

  /** `.*$` starting at position `j`: every remaining character matches `.`. */
  predicate DotsToEnd(s: string, j: nat) {
    forall k :: j <= k < |s| ==> !IsLineTerminator(s[k])
  }

  /** `(?:\?.*)?$` starting at position `j`. */
  predicate QueryToEnd(s: string, j: nat) {
    j == |s| || (j < |s| && s[j] == '?' && DotsToEnd(s, j + 1))
  }

  /** `\/?(?:\?.*)?$` matches starting at position `i`. Every match runs to the
      end of the string, because of the `$` anchor. */
  predicate MatchesAt(s: string, i: nat)
    ensures MatchesAt(s, i) ==> i <= |s|
    ensures i == |s| ==> MatchesAt(s, i)
    ensures i < |s| && IsLineTerminator(s[i]) ==> !MatchesAt(s, i)
  {
    i <= |s| &&
    ((i < |s| && s[i] == '/' && QueryToEnd(s, i + 1)) || QueryToEnd(s, i))
  }

  /** The regular-expression engine's scan: the leftmost position from `i` on
      where the pattern matches. The empty match at the end always exists. */
  function FirstMatch(s: string, i: nat): (k: nat)
    requires i <= |s|
    ensures i <= k <= |s| && MatchesAt(s, k)
    ensures forall j :: i <= j < k ==> !MatchesAt(s, j)
    decreases |s| - i
  {
    if MatchesAt(s, i) then i else FirstMatch(s, i + 1)
  }

  /** `url.replace(/\/?(?:\?.*)?$/, '')`: the leftmost match is removed, and as
      it runs to the end, what is left is the prefix before it. */
  function StripSuffix(url: string): (r: string)
    ensures r <= url
    ensures MatchesAt(url, |r|)
    ensures forall j :: 0 <= j < |r| ==> !MatchesAt(url, j)
  {
    url[..FirstMatch(url, 0)]
  }

  predicate IsAsciiUpper(c: char) {
    'A' <= c <= 'Z'
  }

  /** `toLowerCase` on one character, restricted to ASCII. */
  function LowerChar(c: char): (d: char)
    ensures !IsAsciiUpper(d)
    ensures IsAsciiUpper(c) ==> d as int == c as int + 32
    ensures !IsAsciiUpper(c) ==> d == c
  {
    if IsAsciiUpper(c) then (c as int + 32) as char else c
  }

  predicate NoAsciiUpper(s: string) {
    forall k :: 0 <= k < |s| ==> !IsAsciiUpper(s[k])
  }

  /** `toLowerCase` on a string: character by character, length preserved. */
  function ToLower(s: string): (r: string)
    ensures |r| == |s|
    ensures forall k :: 0 <= k < |s| ==> r[k] == LowerChar(s[k])
  {
    if s == [] then [] else [LowerChar(s[0])] + ToLower(s[1..])
  }

  /** The whole normalisation expression. */
  function Normalize(url: string): (r: string)
    ensures |r| <= |url|
    ensures NoAsciiUpper(r)
  {
    ToLower(StripSuffix(url))
  }

  predicate EndsInSlash(s: string) {
    |s| > 0 && s[|s| - 1] == '/'
  }

  /** Lowercasing changes nothing in a string that has no ASCII upper-case letter. */
  lemma ToLowerFixed(s: string)
    requires NoAsciiUpper(s)
    ensures ToLower(s) == s
  {
  }

  /** Lowercasing gives `t` when `t` holds the lowered characters of `s`. */
  lemma ToLowerIs(s: string, t: string)
    requires |s| == |t|
    requires forall k :: 0 <= k < |s| ==> LowerChar(s[k]) == t[k]
    ensures ToLower(s) == t
  {
  }

  /** Lowercasing leaves '?', '/' and line terminators where they are. */
  lemma ToLowerKeepsPunctuation(s: string, k: nat)
    requires k < |s|
    ensures ToLower(s)[k] == '?' <==> s[k] == '?'
    ensures ToLower(s)[k] == '/' <==> s[k] == '/'
    ensures IsLineTerminator(ToLower(s)[k]) <==> IsLineTerminator(s[k])
  {
  }

  /** With a '?' in the URL and no line terminator after the first one,
      everything from the first '?' on is removed, and so is a '/' immediately
      before it. */
  lemma StripAtFirstQuery(url: string, q: nat)
    requires q < |url| && url[q] == '?'
    requires DotsToEnd(url, q + 1)
    requires forall j :: 0 <= j < q ==> url[j] != '?'
    ensures StripSuffix(url) == if q > 0 && url[q - 1] == '/' then url[..q - 1] else url[..q]
  {
    var k := if q > 0 && url[q - 1] == '/' then q - 1 else q;
    assert MatchesAt(url, k);
    forall j | 0 <= j < k
      ensures !MatchesAt(url, j)
    {
      if j + 1 < q {
        assert url[j] != '?' && url[j + 1] != '?';
      } else {
        assert url[j] != '?' && url[j] != '/';
      }
    }
    var m := |StripSuffix(url)|;
    assert m == k;
  }

  /** With no '?' in the URL, only a single trailing '/' is removed, line
      terminators or not. */
  lemma StripWithoutQuery(url: string)
    requires forall j :: 0 <= j < |url| ==> url[j] != '?'
    ensures StripSuffix(url) == if EndsInSlash(url) then url[..|url| - 1] else url
  {
    var k := if EndsInSlash(url) then |url| - 1 else |url|;
    assert MatchesAt(url, k);
    forall j | 0 <= j < k
      ensures !MatchesAt(url, j)
    {
      if j + 1 < |url| {
        assert url[j] != '?' && url[j + 1] != '?';
      } else {
        assert url[j] != '?' && url[j] != '/';
      }
    }
    var m := |StripSuffix(url)|;
    assert m == k;
  }

  /** For a URL without line terminators the normalised path holds no '?'. */
  lemma NormalizeHasNoQuery(url: string)
    requires NoLineTerminators(url)
    ensures forall k :: 0 <= k < |Normalize(url)| ==> Normalize(url)[k] != '?'
  {
    var s := StripSuffix(url);
    forall k: nat | k < |s|
      ensures s[k] != '?'
    {
      assert url[k] == s[k];
      assert DotsToEnd(url, k + 1);
      assert s[k] == '?' ==> MatchesAt(url, k);
    }
    forall k | 0 <= k < |s|
      ensures Normalize(url)[k] != '?'
    {
      ToLowerKeepsPunctuation(s, k);
    }
  }

  /** The part of the URL that the replace removes holds no line terminator:
      `'/'`, `'?'` and `.` all differ from one. */
  lemma RemovedPartHasNoLineTerminator(url: string)
    ensures DotsToEnd(url, |StripSuffix(url)|)
  {
    var m := |StripSuffix(url)|;
    if m < |url| && url[m] == '/' && QueryToEnd(url, m + 1) {
      assert m + 1 < |url| ==> DotsToEnd(url, m + 2);
    } else {
      assert m < |url| ==> DotsToEnd(url, m + 1);
    }
  }

  /** Normalising a second time changes the path exactly when the first result
      ends in '/': the normalisation is idempotent only on those results that
      do not. This holds for every URL, line terminators included. */
  lemma NormalizeTwice(url: string)
    ensures Normalize(Normalize(url)) == Normalize(url) <==> !EndsInSlash(Normalize(url))
  {
    var s := StripSuffix(url);
    var r := Normalize(url);
    var m := |s|;
    if EndsInSlash(r) {
      assert MatchesAt(r, |r| - 1);
      assert |StripSuffix(r)| < |r|;
      assert |Normalize(r)| < |r|;
    } else {
      RemovedPartHasNoLineTerminator(url);
      forall j: nat | j < m
        ensures !MatchesAt(r, j)
      {
        forall t | j < t < m
          ensures IsLineTerminator(r[t]) <==> IsLineTerminator(url[t])
        {
          ToLowerKeepsPunctuation(s, t);
        }
        ToLowerKeepsPunctuation(s, j);
        if j + 1 < m {
          ToLowerKeepsPunctuation(s, j + 1);
        }
        assert MatchesAt(r, j) ==> MatchesAt(url, j);
      }
      assert StripSuffix(r) == r;
      ToLowerFixed(r);
    }
  }

  /** The non-idempotent cases: "//" normalises to "/", which normalises to "". */
  lemma NormalizeSlashes()
    ensures Normalize("//") == "/"
    ensures Normalize("/") == ""
    ensures Normalize(Normalize("//")) != Normalize("//")
  {
    StripWithoutQuery("//");
    StripWithoutQuery("/");
    assert "//"[..1] == "/";
    assert ToLower("/") == "/" by {
      ToLowerFixed("/");
    }
  }

  /** A '/' just before the query goes with it, and the case is folded. */
  lemma NormalizeSlashBeforeQuery()
    ensures Normalize("/about/?x=1") == "/about"
  {
    StripAtFirstQuery("/about/?x=1", 7);
    assert "/about/?x=1"[..6] == "/about";
    ToLowerFixed("/about");
  }

  /** Without a '/' before it, the query alone is removed. */
  lemma NormalizeQueryAndCase()
    ensures Normalize("/About?x=1") == "/about"
  {
    StripAtFirstQuery("/About?x=1", 6);
    assert "/About?x=1"[..6] == "/About";
    ToLowerIs("/About", "/about");
  }

  /** A single trailing '/' is removed and the case is folded. */
  lemma NormalizeTrailingSlashAndCase()
    ensures Normalize("/About/") == "/about"
  {
    StripWithoutQuery("/About/");
    assert "/About/"[..6] == "/About";
    ToLowerIs("/About", "/about");
  }

  /** A path that is already normal is left as it is. */
  lemma NormalizePlainPath()
    ensures Normalize("/about") == "/about"
  {
    StripWithoutQuery("/about");
    ToLowerFixed("/about");
  }

  /** A '?' followed, anywhere later, by a line terminator is not removed,
      because `.` stops at the line terminator and `$` then fails. */
  lemma QueryBeforeLineBreakKept()
    ensures StripSuffix("/a?b\nc") == "/a?b\nc"
  {
    var s := "/a?b\nc";
    assert !DotsToEnd(s, 3) by {
      assert IsLineTerminator(s[4]);
    }
    assert forall j :: 0 <= j < |s| ==> !MatchesAt(s, j);
  }
}
