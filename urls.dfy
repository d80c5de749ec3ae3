/**
 * The two pieces of URL handling the receiver relies on: the network location
 * of a URL (Python's `urlparse(url).netloc`) and the host allow-pattern
 * `sns.[a-z0-9\-]+.amazonaws.com$` searched in it with `re.search`.
 */
module Urls {

  /** Characters Python strips from the front of a URL before splitting it (C0 controls and space). */
  predicate IsControlOrSpace(c: char) { c <= ' ' }

  /** Characters Python deletes anywhere in a URL before splitting it. */
  predicate IsUnsafe(c: char) { c == '\t' || c == '\r' || c == '\n' }

  predicate IsAsciiLetter(c: char) { 'a' <= c <= 'z' || 'A' <= c <= 'Z' }

  /** Letters, digits and `+-.`: the characters a URL scheme may use. */
  predicate IsSchemeChar(c: char) { IsAsciiLetter(c) || '0' <= c <= '9' || c == '+' || c == '-' || c == '.' }

  /** A character that ends the network location: the start of the path, query or fragment. */
  predicate IsNetlocDelimiter(c: char) { c == '/' || c == '?' || c == '#' }

  function StripLeadingControl(s: string): (r: string)
    ensures r == [] || !IsControlOrSpace(r[0])
    ensures |r| <= |s| && r == s[|s| - |r|..]
  {
    if s != [] && IsControlOrSpace(s[0]) then StripLeadingControl(s[1..]) else s
  }

  function RemoveUnsafe(s: string): (r: string)
    ensures forall i :: 0 <= i < |r| ==> !IsUnsafe(r[i])
    ensures (forall i :: 0 <= i < |s| ==> !IsUnsafe(s[i])) ==> r == s
  {
    if s == [] then []
    else if IsUnsafe(s[0]) then RemoveUnsafe(s[1..])
    else
      assert [s[0]] + s[1..] == s;
      [s[0]] + RemoveUnsafe(s[1..])
  }

  /** Index of the first character of `s` from `from` on that satisfies the delimiter test, or `|s|`. */
  function NetlocEnd(s: string, from: nat): (k: nat)
    requires from <= |s|
    ensures from <= k <= |s|
    ensures forall i :: from <= i < k ==> !IsNetlocDelimiter(s[i])
    ensures k < |s| ==> IsNetlocDelimiter(s[k])
    decreases |s| - from
  {
    if from == |s| || IsNetlocDelimiter(s[from]) then from else NetlocEnd(s, from + 1)
  }

  /** Index of the first `:` in `s`, or `|s|` when there is none. */
  function ColonIndex(s: string): (k: nat)
    ensures k <= |s|
    ensures forall i :: 0 <= i < k ==> s[i] != ':'
    ensures k < |s| ==> s[k] == ':'
  {
    if s == [] || s[0] == ':' then 0 else 1 + ColonIndex(s[1..])
  }

  /** What is left of a cleaned URL once a leading `scheme:` (letter first, scheme characters only) is removed. */
  function AfterScheme(u: string): string
  {
    var i := ColonIndex(u);
    if 0 < i < |u| && IsAsciiLetter(u[0]) && (forall k :: 0 <= k < i ==> IsSchemeChar(u[k]))
    then u[i + 1..]
    else u
  }

  /**
   * `urlparse(url).netloc`: after cleaning and removing the scheme, the text that
   * follows `//` up to the first `/`, `?` or `#`; empty when there is no `//`.
   */
  function Netloc(url: string): (host: string)
    ensures forall i :: 0 <= i < |host| ==> !IsNetlocDelimiter(host[i]) && !IsUnsafe(host[i])
  {
    var rest := AfterScheme(RemoveUnsafe(StripLeadingControl(url)));
    if |rest| >= 2 && rest[..2] == "//" then
      var e := NetlocEnd(rest, 2);
      rest[2..e]
    else ""
  }

  /** No character of `s` is deleted by the cleaning step. */
  predicate IsClean(s: string)
  {
    forall k :: 0 <= k < |s| ==> !IsUnsafe(s[k])
  }

  lemma {:induction false} ColonIndexAfter(p: string, t: string)
    requires ':' !in p && t != [] && t[0] == ':'
    ensures ColonIndex(p + t) == |p|
    decreases |p|
  {
    if p != [] {
      assert (p + t)[1..] == p[1..] + t;
      ColonIndexAfter(p[1..], t);
    }
  }

  lemma {:induction false} NetlocEndAt(s: string, from: nat, k: nat)
    requires from <= k <= |s|
    requires forall i :: from <= i < k ==> !IsNetlocDelimiter(s[i])
    requires k == |s| || IsNetlocDelimiter(s[k])
    ensures NetlocEnd(s, from) == k
    decreases k - from
  {
    if from < k {
      NetlocEndAt(s, from + 1, k);
    }
  }

  /**
   * The host of a plain `scheme://host/...` URL is exactly `host`, whatever
   * follows it, so the domain checks see the host the request would go to.
   */
  lemma NetlocOfUrl(scheme: string, host: string, rest: string)
    requires |scheme| > 0 && IsAsciiLetter(scheme[0])
    requires forall k :: 0 <= k < |scheme| ==> IsSchemeChar(scheme[k])
    requires forall k :: 0 <= k < |host| ==> !IsNetlocDelimiter(host[k])
    requires rest == [] || IsNetlocDelimiter(rest[0])
    requires IsClean(host) && IsClean(rest)
    ensures Netloc(scheme + "://" + host + rest) == host
  {
    var after := "//" + host + rest;
    var url := scheme + (":" + after);
    assert url == scheme + "://" + host + rest;
    assert StripLeadingControl(url) == url by {
      assert url[0] == scheme[0];
    }
    AfterClean(host, rest);
    SchemeRemoved(scheme, after);
    HostAfterSlashes(host, rest);
  }

  /** The part after the scheme's colon is clean when host and rest are. */
  lemma AfterClean(host: string, rest: string)
    requires IsClean(host) && IsClean(rest)
    ensures IsClean(":" + ("//" + host + rest))
  {
    var s := ":" + ("//" + host + rest);
    assert forall k :: 3 <= k < 3 + |host| ==> s[k] == host[k - 3];
    assert forall k :: 3 + |host| <= k < |s| ==> s[k] == rest[k - 3 - |host|];
  }

  /** Cleaning leaves `scheme:after` alone, and the scheme and its colon are then removed. */
  lemma SchemeRemoved(scheme: string, after: string)
    requires |scheme| > 0 && IsAsciiLetter(scheme[0])
    requires forall k :: 0 <= k < |scheme| ==> IsSchemeChar(scheme[k])
    requires IsClean(":" + after)
    ensures AfterScheme(RemoveUnsafe(scheme + (":" + after))) == after
  {
    var url := scheme + (":" + after);
    assert IsClean(url) by {
      forall k | 0 <= k < |url| ensures !IsUnsafe(url[k]) {
        if k < |scheme| {
          assert url[k] == scheme[k] && IsSchemeChar(scheme[k]);
        } else {
          assert url[k] == (":" + after)[k - |scheme|];
        }
      }
    }
    assert RemoveUnsafe(url) == url;
    assert ':' !in scheme by {
      forall k | 0 <= k < |scheme| ensures scheme[k] != ':' {
        assert IsSchemeChar(scheme[k]);
      }
    }
    ColonIndexAfter(scheme, ":" + after);
    assert forall k :: 0 <= k < |scheme| ==> url[k] == scheme[k];
    assert url[|scheme| + 1..] == after;
  }

  /** Following `//`, the host runs up to the first delimiter, which is where `rest` starts. */
  lemma HostAfterSlashes(host: string, rest: string)
    requires forall k :: 0 <= k < |host| ==> !IsNetlocDelimiter(host[k])
    requires rest == [] || IsNetlocDelimiter(rest[0])
    ensures var after := "//" + host + rest;
      |after| >= 2 && after[..2] == "//" && 2 + |host| <= |after| && NetlocEnd(after, 2) == 2 + |host| &&
      after[2..2 + |host|] == host
  {
    var after := "//" + host + rest;
    assert after[..2] == "//";
    assert forall k :: 2 <= k < 2 + |host| ==> after[k] == host[k - 2];
    assert 2 + |host| < |after| ==> after[2 + |host|] == rest[0];
    NetlocEndAt(after, 2, 2 + |host|);
    assert after[2..2 + |host|] == host;
  }

  /** A character of the pattern's class `[a-z0-9\-]`. */
  predicate IsRegionChar(c: char) { 'a' <= c <= 'z' || '0' <= c <= '9' || c == '-' }

  /** The unescaped `.` of the pattern: any character but a newline. */
  predicate IsWildcard(c: char) { c != '\n' }

  /** `sns.` followed by a non-empty run of region characters that ends just before `j`, starting at `i`. */
  predicate HeadAt(d: string, i: nat, j: nat)
    requires i + 4 < j <= |d|
  {
    d[i..i + 3] == "sns" && IsWildcard(d[i + 3]) && forall k :: i + 4 <= k < j ==> IsRegionChar(d[k])
  }

  /** `.amazonaws.com` at `d[j..j+14]`, each of its dots a wildcard. */
  predicate TailAt(d: string, j: nat)
    requires j + 14 <= |d|
  {
    IsWildcard(d[j]) && d[j + 1..j + 10] == "amazonaws" && IsWildcard(d[j + 10]) && d[j + 11..j + 14] == "com"
  }

  /** `$`: the match ends at the end of `d`, or just before a final newline. */
  predicate EndsAt(d: string, e: nat)
  {
    e == |d| || (e + 1 == |d| && d[e] == '\n')
  }

  /** The pattern matches `d[i..j+14]`, its run of region characters being `d[i+4..j]`. */
  ghost predicate MatchesAt(d: string, i: nat, j: nat)
  {
    i + 4 < j && j + 14 <= |d| && HeadAt(d, i, j) && TailAt(d, j) && EndsAt(d, j + 14)
  }

  /** Whether some start `i' <= i` begins a head that runs up to `j`, given region characters on `d[i+4..j]`. */
  function ScanHead(d: string, j: nat, i: nat): (found: bool)
    requires i + 5 <= j <= |d|
    requires forall k :: i + 4 <= k < j ==> IsRegionChar(d[k])
    ensures found <==> exists i' :: 0 <= i' <= i && HeadAt(d, i', j)
    decreases i
  {
    if d[i..i + 3] == "sns" && IsWildcard(d[i + 3]) then
      assert HeadAt(d, i, j);
      true
    else if i == 0 || !IsRegionChar(d[i + 3]) then false
    else ScanHead(d, j, i - 1)
  }

  /** A head ends at `j` and the tail starts there. */
  function MatchesBefore(d: string, j: nat): bool
    requires 5 <= j && j + 14 <= |d|
  {
    TailAt(d, j) && IsRegionChar(d[j - 1]) && ScanHead(d, j, j - 5)
  }

  /**
   * `re.search(r"sns.[a-z0-9\-]+.amazonaws.com$", d)`: the default allow-pattern
   * for certificate and subscription hosts, matched anywhere in `d`.
   */
  function DefaultSearch(d: string): (found: bool)
    ensures found <==> exists i, j :: MatchesAt(d, i, j)
  {
    var atEnd := |d| >= 19 && MatchesBefore(d, |d| - 14);
    var beforeNewline := |d| >= 20 && d[|d| - 1] == '\n' && MatchesBefore(d, |d| - 15);
    if atEnd then
      MatchFoundBefore(d, |d| - 14);
      true
    else if beforeNewline then
      MatchFoundBefore(d, |d| - 15);
      true
    else
      assert forall i, j :: !MatchesAt(d, i, j) by {
        forall i, j | MatchesAt(d, i, j) ensures false {
          MatchEndsAtEnd(d, i, j);
        }
      }
      false
  }

  /** A head ending at `j`, a tail there and `$` after it make a match. */
  lemma MatchFoundBefore(d: string, j: nat)
    requires 5 <= j && j + 14 <= |d| && MatchesBefore(d, j) && EndsAt(d, j + 14)
    ensures exists i :: MatchesAt(d, i, j)
  {
    var i :| 0 <= i <= j - 5 && HeadAt(d, i, j);
    assert MatchesAt(d, i, j);
  }

  /** Every match ends with its tail at `|d| - 14`, or at `|d| - 15` before a final newline, where the scan finds it. */
  lemma MatchEndsAtEnd(d: string, i: nat, j: nat)
    requires MatchesAt(d, i, j)
    ensures (j + 14 == |d| && MatchesBefore(d, j)) || (j + 15 == |d| && d[|d| - 1] == '\n' && MatchesBefore(d, j))
  {
    assert IsRegionChar(d[j - 1]);
    assert ScanHead(d, j, j - 5);
  }

  /** The allow-pattern a setting selects: the default above, or a configured regular expression left abstract. */
  datatype DomainPattern = DefaultPattern | Configured(search: string -> bool)

  /** `re.search(pattern, domain)` is truthy. */
  function Search(pattern: DomainPattern, domain: string): bool
  {
    match pattern
    case DefaultPattern => DefaultSearch(domain)
    case Configured(search) => search(domain)
  }

  /**
   * Under the default pattern, `re.search` succeeds exactly when some match
   * ends at the end of the host or just before a final newline; a configured
   * pattern answers as its own search does.
   */
  lemma SearchMatches(pattern: DomainPattern, domain: string)
    ensures pattern.DefaultPattern? ==> (Search(pattern, domain) <==> exists i, j :: MatchesAt(domain, i, j))
    ensures pattern.Configured? ==> Search(pattern, domain) == pattern.search(domain)
  {
  }

  /**
   * Any host that ends with a head (`sns` and a wildcard character), a
   * non-empty run of region characters and a tail (a wildcard, `amazonaws`, a
   * wildcard and `com`) passes the default pattern, whatever precedes it.
   */
  lemma DefaultAcceptsShape(prefix: string, head: string, region: string, tail: string)
    requires |head| == 4 && head[..3] == "sns" && IsWildcard(head[3])
    requires |region| > 0 && forall k :: 0 <= k < |region| ==> IsRegionChar(region[k])
    requires |tail| == 14 && TailAt(tail, 0)
    ensures DefaultSearch(prefix + head + region + tail)
  {
    var d := prefix + head + region + tail;
    var i := |prefix|;
    var j := i + 4 + |region|;
    assert d[i..i + 3] == head[..3] && d[i + 3] == head[3];
    assert forall k :: i + 4 <= k < j ==> d[k] == region[k - i - 4];
    assert d[j..] == tail;
    assert d[j + 1..j + 10] == tail[1..10] && d[j + 11..j + 14] == tail[11..14];
    assert HeadAt(d, i, j);
    assert TailAt(d, j);
    assert MatchesAt(d, i, j);
  }

  /** Every regional host `sns.<region>.amazonaws.com` passes the default pattern. */
  lemma DefaultAcceptsRegionalHost(region: string)
    requires |region| > 0 && forall k :: 0 <= k < |region| ==> IsRegionChar(region[k])
    ensures DefaultSearch("sns." + region + ".amazonaws.com")
  {
    var head, tail := "sns.", ".amazonaws.com";
    assert TailAt(tail, 0);
    DefaultAcceptsShape("", head, region, tail);
    assert "" + head == head;
  }

  /**
   * Because the pattern's dots are unescaped, hosts outside the
   * `sns.<region>.amazonaws.com` family pass too, such as the registrable
   * names `sns-<region>-amazonaws.com`.
   */
  lemma DefaultAcceptsLookalikeHost(region: string)
    requires |region| > 0 && forall k :: 0 <= k < |region| ==> IsRegionChar(region[k])
    ensures DefaultSearch("sns-" + region + "-amazonaws.com")
  {
    var head, tail := "sns-", "-amazonaws.com";
    assert TailAt(tail, 0);
    DefaultAcceptsShape("", head, region, tail);
    assert "" + head == head;
  }

  /**
   * Because the search is not anchored at the start, any host that merely ends
   * in a regional host passes, such as `evilsns.x.amazonaws.com`.
   */
  lemma DefaultAcceptsSuffixedHost(prefix: string, region: string)
    requires |region| > 0 && forall k :: 0 <= k < |region| ==> IsRegionChar(region[k])
    ensures DefaultSearch(prefix + "sns." + region + ".amazonaws.com")
  {
    var head, tail := "sns.", ".amazonaws.com";
    assert TailAt(tail, 0);
    DefaultAcceptsShape(prefix, head, region, tail);
  }

  /** Hosts that do not end in the `.amazonaws.com` shape, or whose label before it does not follow `sns`, are refused. */
  lemma DefaultRejectsForeignHosts()
    ensures !DefaultSearch("baddomain.com")
    ensures !DefaultSearch("anon.amazonaws.com")
    ensures !DefaultSearch("sns.us-east-1.amazonaws.com:443")
  {
    var a := "anon.amazonaws.com";
    assert |a| == 18;
    var p := "sns.us-east-1.amazonaws.com:443";
    assert p[|p| - 1] != '\n';
    assert p[|p| - 3..] == "443";
    assert !TailAt(p, |p| - 14);
  }
}
