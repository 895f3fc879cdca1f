/**
 * URIs. Parsing a `java.net.URI` is foreign code; `ValidUri` approximates it by its character rules:
 * RFC 3986 characters, percent signs and non-ASCII text, with no scheme delimiter in first position.
 */
module Uris {
  import opened Base

  /** A parsed URI; `toString()` returns the text it was parsed from. */
  datatype Uri = Uri(text: string)

  predicate UriChar(c: char)
  {
    || ('a' <= c <= 'z') || ('A' <= c <= 'Z') || ('0' <= c <= '9')
    || c in "-._~:/?#[]@!$&'()*+,;=%"
    || c >= '\U{00A1}'
  }

  predicate ValidUri(s: string)
  {
    && (forall i :: 0 <= i < |s| ==> UriChar(s[i]))
    && !(|s| > 0 && s[0] == ':')
  }

  /** `new URI(text)`, with the `URISyntaxException` as an absent result. */
  function Parse(text: string): (r: Option<Uri>)
    ensures r.Some? <==> ValidUri(text)
    ensures r.Some? ==> r.value.text == text
  {
    if ValidUri(text) then Some(Uri(text)) else None
  }

  /** `String.hashCode()`: 31-polynomial of the characters, wrapped to a signed 32-bit value. */
  function StringHash(s: string): int
  {
    if s == [] then 0 else Wrap32(31 * StringHash(s[..|s| - 1]) + s[|s| - 1] as int)
  }

  function Wrap32(x: int): (r: int)
    ensures -0x8000_0000 <= r < 0x8000_0000
  {
    var m := x % 0x1_0000_0000;
    if m >= 0x8000_0000 then m - 0x1_0000_0000 else m
  }

  // ---------------------------------------------------------------------------------------------
  // `URI.equals`: the scheme and the host are compared without regard to case, and so are the
  // hexadecimal digits of escaped octets; every other character is compared as written.

  function LowerAscii(c: char): char
  {
    if 'A' <= c <= 'Z' then (c as int + 32) as char else c
  }

  /** The first position at or after `i` holding one of `stops`, or the end of the text. */
  function FindFrom(s: string, i: nat, stops: set<char>): (r: nat)
    requires i <= |s|
    ensures i <= r <= |s|
    ensures forall k :: i <= k < r ==> s[k] !in stops
    ensures r < |s| ==> s[r] in stops
    decreases |s| - i
  {
    if i == |s| || s[i] in stops then i else FindFrom(s, i + 1, stops)
  }

  /** The length of the scheme: the text before a ':' that no '/', '?' or '#' precedes; 0 if none. */
  function SchemeEnd(s: string): (r: nat)
    ensures r <= |s|
    ensures r > 0 ==> r < |s| && s[r] == ':' && forall k :: 0 <= k < r ==> s[k] !in {':', '/', '?', '#'}
  {
    var c := FindFrom(s, 0, {':', '/', '?', '#'});
    if c < |s| && s[c] == ':' then c else 0
  }

  /** Where the authority begins: just after the "//" that follows the scheme, if there is one. */
  function AuthorityStart(s: string): (r: Option<nat>)
    ensures r.Some? ==> 2 <= r.value <= |s| && s[r.value - 2] == '/' && s[r.value - 1] == '/'
  {
    var rest := if SchemeEnd(s) > 0 then SchemeEnd(s) + 1 else 0;
    if rest + 2 <= |s| && s[rest] == '/' && s[rest + 1] == '/' then Some(rest + 2) else None
  }

  /** The host and the port: the authority after its last '@', which ends the user information. */
  function HostStart(s: string, start: nat, end: nat): (r: nat)
    requires start <= end <= |s|
    ensures start <= r <= end
    ensures forall k :: r <= k < end ==> s[k] != '@'
    ensures r > start ==> s[r - 1] == '@'
    decreases end - start
  {
    if end == start then start
    else if s[end - 1] == '@' then end
    else HostStart(s, start, end - 1)
  }

  /** Position `i` belongs to the host (or the port that follows it). */
  predicate InHost(s: string, i: int)
  {
    && AuthorityStart(s).Some?
    && var start := AuthorityStart(s).value;
       var end := FindFrom(s, start, {'/', '?', '#'});
       HostStart(s, start, end) <= i < end
  }

  /** Position `i` is one of the two hexadecimal digits after a '%'. */
  predicate EscapedDigit(s: string, i: int)
  {
    || (1 <= i <= |s| && s[i - 1] == '%')
    || (2 <= i <= |s| + 1 && s[i - 2] == '%')
  }

  /** Position `i` belongs to the user information: in the authority, before the host. */
  predicate InUserInfo(s: string, i: int)
  {
    && AuthorityStart(s).Some?
    && var start := AuthorityStart(s).value;
       var end := FindFrom(s, start, {'/', '?', '#'});
       start <= i < HostStart(s, start, end)
  }

  /** Position `i` follows the authority: the path, the query or the fragment. */
  predicate AfterAuthority(s: string, i: int)
  {
    && AuthorityStart(s).Some?
    && FindFrom(s, AuthorityStart(s).value, {'/', '?', '#'}) <= i < |s|
  }

  /** Position `i` is compared without regard to case. */
  predicate CaseIgnored(s: string, i: int)
  {
    || 0 <= i < SchemeEnd(s)
    || InHost(s, i)
    || EscapedDigit(s, i)
  }

  /** The text with every character whose case does not matter in lower case. */
  function CompareForm(s: string): (r: string)
    ensures |r| == |s|
    ensures forall i :: 0 <= i < |s| ==> r[i] == if CaseIgnored(s, i) then LowerAscii(s[i]) else s[i]
  {
    seq(|s|, i requires 0 <= i < |s| => if CaseIgnored(s, i) then LowerAscii(s[i]) else s[i])
  }

  /** `URI.equals`. */
  predicate SameUri(u: Uri, v: Uri)
  {
    CompareForm(u.text) == CompareForm(v.text)
  }

  // The structure of a URI does not depend on the case of its letters.

  /** Two texts of one length whose characters are the same up to ASCII case. */
  predicate SameUpToCase(a: string, b: string)
  {
    |a| == |b| && forall k :: 0 <= k < |a| ==> LowerAscii(a[k]) == LowerAscii(b[k])
  }

  predicate NoAsciiLetter(stops: set<char>)
  {
    forall c :: c in stops ==> !('A' <= c <= 'Z') && !('a' <= c <= 'z')
  }

  /** Characters that are the same up to case are the same delimiter, or neither is one. */
  lemma {:induction false} SameDelimiter(c: char, d: char, stops: set<char>)
    requires LowerAscii(c) == LowerAscii(d) && NoAsciiLetter(stops)
    ensures c in stops <==> d in stops
    ensures c in stops ==> c == d
  {
  }

  lemma {:induction false} FindFromSame(a: string, b: string, i: nat, stops: set<char>)
    requires SameUpToCase(a, b) && i <= |a| && NoAsciiLetter(stops)
    ensures FindFrom(a, i, stops) == FindFrom(b, i, stops)
    decreases |a| - i
  {
    if i < |a| {
      SameDelimiter(a[i], b[i], stops);
      if a[i] !in stops {
        FindFromSame(a, b, i + 1, stops);
      }
    }
  }

  lemma {:induction false} SchemeEndSame(a: string, b: string)
    requires SameUpToCase(a, b)
    ensures SchemeEnd(a) == SchemeEnd(b)
  {
    var stops := {':', '/', '?', '#'};
    FindFromSame(a, b, 0, stops);
    var c := FindFrom(a, 0, stops);
    if c < |a| {
      SameDelimiter(a[c], b[c], stops);
    }
  }

  lemma {:induction false} AuthorityStartSame(a: string, b: string)
    requires SameUpToCase(a, b)
    ensures AuthorityStart(a) == AuthorityStart(b)
  {
    SchemeEndSame(a, b);
    var rest := if SchemeEnd(a) > 0 then SchemeEnd(a) + 1 else 0;
    if rest + 2 <= |a| {
      SameDelimiter(a[rest], b[rest], {'/'});
      SameDelimiter(a[rest + 1], b[rest + 1], {'/'});
    }
  }

  lemma {:induction false} HostStartSame(a: string, b: string, start: nat, end: nat)
    requires SameUpToCase(a, b) && start <= end <= |a|
    ensures HostStart(a, start, end) == HostStart(b, start, end)
    decreases end - start
  {
    if start < end {
      SameDelimiter(a[end - 1], b[end - 1], {'@'});
      if a[end - 1] != '@' {
        HostStartSame(a, b, start, end - 1);
      }
    }
  }

  lemma {:induction false} InHostSame(a: string, b: string, i: int)
    requires SameUpToCase(a, b)
    ensures InHost(a, i) <==> InHost(b, i)
  {
    AuthorityStartSame(a, b);
    if AuthorityStart(a).Some? {
      var start := AuthorityStart(a).value;
      FindFromSame(a, b, start, {'/', '?', '#'});
      HostStartSame(a, b, start, FindFrom(a, start, {'/', '?', '#'}));
    }
  }

  /** Texts that are the same up to case ignore case at the same positions. */
  lemma {:induction false} CaseIgnoredSame(a: string, b: string, i: int)
    requires SameUpToCase(a, b)
    ensures CaseIgnored(a, i) <==> CaseIgnored(b, i)
  {
    SchemeEndSame(a, b);
    InHostSame(a, b, i);
    if 1 <= i <= |a| {
      SameDelimiter(a[i - 1], b[i - 1], {'%'});
    }
    if 2 <= i <= |a| + 1 {
      SameDelimiter(a[i - 2], b[i - 2], {'%'});
    }
  }

  /**
   * `URI.equals` exactly: two URIs are equal when their texts are the same up to case, and the same
   * as written wherever the case matters.
   */
  lemma {:induction false} SameUriExactly(a: string, b: string)
    ensures SameUri(Uri(a), Uri(b)) <==>
              SameUpToCase(a, b) && forall k :: 0 <= k < |a| && !CaseIgnored(a, k) ==> a[k] == b[k]
  {
    var ca, cb := CompareForm(a), CompareForm(b);
    if ca == cb {
      forall k | 0 <= k < |a|
        ensures LowerAscii(a[k]) == LowerAscii(b[k])
      {
        assert ca[k] == cb[k];
      }
      forall k | 0 <= k < |a| && !CaseIgnored(a, k)
        ensures a[k] == b[k]
      {
        CaseIgnoredSame(a, b, k);
        assert ca[k] == cb[k];
      }
    }
    if SameUpToCase(a, b) && forall k :: 0 <= k < |a| && !CaseIgnored(a, k) ==> a[k] == b[k] {
      forall k | 0 <= k < |a|
        ensures ca[k] == cb[k]
      {
        CaseIgnoredSame(a, b, k);
      }
    }
  }

  /** The case of the scheme does not matter. */
  lemma {:induction false} SchemeCaseIgnored(a: string, b: string)
    requires SameUpToCase(a, b)
    requires forall k :: SchemeEnd(a) <= k < |a| ==> a[k] == b[k]
    ensures SameUri(Uri(a), Uri(b))
  {
    SameUriExactly(a, b);
  }

  /** The case of the host and the port does not matter. */
  lemma {:induction false} HostCaseIgnored(a: string, b: string)
    requires SameUpToCase(a, b)
    requires forall k :: 0 <= k < |a| && !InHost(a, k) ==> a[k] == b[k]
    ensures SameUri(Uri(a), Uri(b))
  {
    SameUriExactly(a, b);
  }

  /** The case of the hexadecimal digits of escaped octets does not matter. */
  lemma {:induction false} EscapeCaseIgnored(a: string, b: string)
    requires SameUpToCase(a, b)
    requires forall k :: 0 <= k < |a| && !EscapedDigit(a, k) ==> a[k] == b[k]
    ensures SameUri(Uri(a), Uri(b))
  {
    SameUriExactly(a, b);
  }

  /** A letter of the user information in another case gives another URI. */
  lemma {:induction false} UserInfoCaseKept(a: string, b: string, k: nat)
    requires SameUpToCase(a, b) && k < |a| && InUserInfo(a, k) && !EscapedDigit(a, k) && a[k] != b[k]
    ensures !SameUri(Uri(a), Uri(b))
  {
    CaseKept(a, b, k);
  }

  /** A letter of the path, query or fragment after an authority in another case gives another URI. */
  lemma {:induction false} PathCaseKept(a: string, b: string, k: nat)
    requires SameUpToCase(a, b) && AfterAuthority(a, k) && !EscapedDigit(a, k) && a[k] != b[k]
    ensures !SameUri(Uri(a), Uri(b))
  {
    CaseKept(a, b, k);
  }

  /**
   * Without an authority, a letter after the scheme (the opaque part, or a path) in another case
   * gives another URI.
   */
  lemma {:induction false} OpaquePartCaseKept(a: string, b: string, k: nat)
    requires SameUpToCase(a, b) && AuthorityStart(a).None? && SchemeEnd(a) <= k < |a|
    requires !EscapedDigit(a, k) && a[k] != b[k]
    ensures !SameUri(Uri(a), Uri(b))
  {
    CaseKept(a, b, k);
  }

  /** A difference at any position where case matters gives another URI. */
  lemma {:induction false} CaseKept(a: string, b: string, k: nat)
    requires k < |a| == |b| && !CaseIgnored(a, k) && a[k] != b[k]
    ensures !SameUri(Uri(a), Uri(b))
  {
    SameUriExactly(a, b);
  }

  /** Stands in for `URI.hashCode()`, which hashes the same case-folded components. */
  function Hash(u: Uri): int
  {
    StringHash(CompareForm(u.text))
  }
}
