/** The client-side logic of the sessions service: the classification of the operating
    system and the browser from the navigator's strings, the default session data, and
    the rule that turns the validation answer into a boolean. The navigator's
    `userAgent` and `platform` are parameters; HTTP calls are replaced by their
    outcomes. */
module SessionsService {
  import opened Wrappers
  import opened Sequences

  // ---------------------------------------------------------------------------
  // Operating system

  const MacPlatforms: seq<string> := ["Macintosh", "MacIntel", "MacPPC", "Mac68K"]
  const WindowsPlatforms: seq<string> := ["Win32", "Win64", "Windows", "WinCE"]
  const IosPlatforms: seq<string> := ["iPhone", "iPad", "iPod"]

  const OsNames: set<string> := {"macOS", "iOS", "Windows", "Android", "Linux", "Unknown OS"}

  /** `getOS`: the platform lists are tested first (exact matches), then "Android" in the
      user agent, then "Linux" in the platform. Each answer is characterised by the test
      that gives it and the failure of every test before it. */
  function GetOS(userAgent: string, platform: string): (os: string)
    ensures os in OsNames
    ensures os == "macOS" <==> platform in MacPlatforms
    ensures os == "iOS" <==> platform in IosPlatforms
    ensures os == "Windows" <==> platform in WindowsPlatforms
    ensures os == "Android" <==>
      platform !in MacPlatforms + IosPlatforms + WindowsPlatforms && Contains(userAgent, "Android")
    ensures os == "Linux" <==>
      platform !in MacPlatforms + IosPlatforms + WindowsPlatforms && !Contains(userAgent, "Android") &&
      Contains(platform, "Linux")
  {
    if platform in MacPlatforms then "macOS"
    else if platform in IosPlatforms then "iOS"
    else if platform in WindowsPlatforms then "Windows"
    else if Contains(userAgent, "Android") then "Android"
    else if Contains(platform, "Linux") then "Linux"
    else "Unknown OS"
  }

  /** None of the listed platforms mentions Linux. */
  lemma ListedPlatformsAreNotLinux()
    ensures forall p :: p in MacPlatforms + IosPlatforms + WindowsPlatforms ==> !Contains(p, "Linux")
  {
    var all := MacPlatforms + IosPlatforms + WindowsPlatforms;
    forall p | p in all
      ensures !Contains(p, "Linux")
    {
      NoLinuxBelowL(p);
    }
  }

  /** A string whose characters are never 'L' does not contain "Linux". */
  lemma {:induction false} NoLinuxBelowL(s: string)
    requires 'L' !in s
    ensures !Contains(s, "Linux")
    decreases |s|
  {
    if s != [] {
      assert 'L' !in s[1..] by { assert forall c :: c in s[1..] ==> c in s; }
      NoLinuxBelowL(s[1..]);
      assert s[0] != 'L';
    }
  }

  /** An Android user agent on a Linux platform (the usual Android pair) classifies as
      Android, since the user-agent test comes first. */
  lemma AndroidBeforeLinux(userAgent: string, platform: string)
    requires Contains(userAgent, "Android") && Contains(platform, "Linux")
    ensures GetOS(userAgent, platform) == "Android"
  {
    ListedPlatformsAreNotLinux();
  }

  // ---------------------------------------------------------------------------
  // Browser

  predicate IsDigit(c: char) {
    '0' <= c <= '9'
  }

  /** The length of the run of digits that starts `s`. */
  function DigitRun(s: string): (n: nat)
    ensures n <= |s|
    ensures forall i :: 0 <= i < n ==> IsDigit(s[i])
    ensures n < |s| ==> !IsDigit(s[n])
  {
    if s != [] && IsDigit(s[0]) then 1 + DigitRun(s[1..]) else 0
  }

  /** The text a `\d+\.\d+` group captures: digits, a dot, digits, with each run as long
      as the regular expression's greedy matching makes it. */
  predicate IsVersion(v: string) {
    var n := DigitRun(v);
    0 < n < |v| && v[n] == '.' && 0 < DigitRun(v[n + 1..]) == |v| - n - 1
  }

  /** `(\d+\.\d+)` matched at the very start of `s`. */
  function VersionAtStart(s: string): (v: Option<string>)
    ensures v.Some? ==> IsVersion(v.value) && StartsWith(s, v.value)
    ensures v.Some? ==> |v.value| == |s| || !IsDigit(s[|v.value|])
  {
    var n1 := DigitRun(s);
    if 0 < n1 < |s| && s[n1] == '.' && DigitRun(s[n1 + 1..]) > 0 then
      var v := s[..n1 + 1 + DigitRun(s[n1 + 1..])];
      GreedyVersion(s, n1);
      Some(v)
    else None
  }

  /** The greedy match of `\d+\.\d+` at the start of `s` is a version, a prefix of `s`,
      and not followed by a digit. */
  lemma GreedyVersion(s: string, n1: nat)
    requires n1 == DigitRun(s) && 0 < n1 < |s| && s[n1] == '.' && DigitRun(s[n1 + 1..]) > 0
    ensures var v := s[..n1 + 1 + DigitRun(s[n1 + 1..])];
      IsVersion(v) && StartsWith(s, v) && (|v| == |s| || !IsDigit(s[|v|]))
  {
    var t := s[n1 + 1..];
    var n2 := DigitRun(t);
    var v := s[..n1 + 1 + n2];
    GreedyVersionRuns(s, n1, t, n2, v);
    assert s[..|v|] == v;
    if |v| < |s| {
      assert s[|v|] == t[n2];
    }
  }

  /** The two digit runs of the greedy match are those of `s` and of the text after
      the dot. */
  lemma GreedyVersionRuns(s: string, n1: nat, t: string, n2: nat, v: string)
    requires n1 == DigitRun(s) && 0 < n1 < |s| && s[n1] == '.'
    requires t == s[n1 + 1..] && n2 == DigitRun(t) && n2 > 0 && v == s[..n1 + 1 + n2]
    ensures IsVersion(v)
  {
    DigitRunPrefix(s, |v|);
    assert v[n1 + 1..] == t[..n2];
    DigitRunPrefix(t, n2);
  }

  /** The run of digits of a prefix is that of the string, cut at the prefix's end. */
  lemma {:induction false} DigitRunPrefix(s: string, k: nat)
    requires k <= |s|
    ensures DigitRun(s[..k]) == if DigitRun(s) < k then DigitRun(s) else k
    decreases k
  {
    if k > 0 && s != [] && IsDigit(s[0]) {
      assert s[..k][1..] == s[1..][..k - 1];
      DigitRunPrefix(s[1..], k - 1);
    }
  }

  /** The alternation `(?:p1|p2|…)\/(\d+\.\d+)` at the start of `s`: the alternatives
      are tried in order, and one whose version fails gives way to the next. */
  function VersionAfterPrefix(s: string, prefixes: seq<string>): (v: Option<string>)
    ensures v.Some? ==> IsVersion(v.value)
    decreases |prefixes|
  {
    if prefixes == [] then None
    else if StartsWith(s, prefixes[0]) && VersionAtStart(s[|prefixes[0]|..]).Some? then
      VersionAtStart(s[|prefixes[0]|..])
    else VersionAfterPrefix(s, prefixes[1..])
  }

  /** `s.match(re)?.[1]`: the version captured at the leftmost position where the
      pattern matches, or none. */
  function MatchVersion(s: string, prefixes: seq<string>): (v: Option<string>)
    ensures v.Some? ==> IsVersion(v.value)
    decreases |s|
  {
    var here := VersionAfterPrefix(s, prefixes);
    if here.Some? then here
    else if s == [] then None
    else MatchVersion(s[1..], prefixes)
  }

  /** A well-formed version right after the prefix, and not followed by another digit,
      is the one captured. */
  lemma MatchVersionOfToken(p: string, v: string, rest: string)
    requires IsVersion(v)
    requires rest == [] || !IsDigit(rest[0])
    ensures MatchVersion(p + v + rest, [p]) == Some(v)
  {
    var s := p + v + rest;
    assert s[|p|..] == v + rest;
    assert StartsWith(s, p) by { assert s[..|p|] == p; }
    VersionAtStartOfToken(v, rest);
    assert VersionAfterPrefix(s, [p]) == Some(v);
  }

  /** The version at the start of `v + rest` is `v` when `rest` does not go on with a
      digit. */
  lemma VersionAtStartOfToken(v: string, rest: string)
    requires IsVersion(v)
    requires rest == [] || !IsDigit(rest[0])
    ensures VersionAtStart(v + rest) == Some(v)
  {
    var t := v + rest;
    var n1 := DigitRun(v);
    DigitRunAppend(v, rest);
    assert t[n1 + 1..] == v[n1 + 1..] + rest;
    DigitRunAppend(v[n1 + 1..], rest);
    assert t[..n1 + 1 + DigitRun(t[n1 + 1..])] == v;
  }

  /** The run of digits of `a + b` stops inside `a` when `a` holds a non-digit, and at
      its end when `b` does not start with a digit. */
  lemma {:induction false} DigitRunAppend(a: string, b: string)
    requires DigitRun(a) < |a| || b == [] || !IsDigit(b[0])
    ensures DigitRun(a + b) == DigitRun(a)
    decreases |a|
  {
    if a != [] {
      assert (a + b)[1..] == a[1..] + b;
      if IsDigit(a[0]) {
        DigitRunAppend(a[1..], b);
      }
    } else {
      assert a + b == b;
    }
  }

  /** `browserVersion` of each branch: the captured version, or "Unknown". */
  function VersionOr(userAgent: string, prefixes: seq<string>): (version: string)
    ensures version == "Unknown" || IsVersion(version)
  {
    MatchVersion(userAgent, prefixes).GetOr("Unknown")
  }

  const BrowserNames: set<string> :=
    {"Firefox", "Samsung Internet", "Opera", "Internet Explorer", "Edge", "Chrome", "Safari", "Unknown"}

  /** None of the markers `getBrowserInfo` tests occurs in the user agent. */
  predicate NoBrowserMarker(userAgent: string) {
    !Contains(userAgent, "Firefox") && !Contains(userAgent, "SamsungBrowser") &&
    !Contains(userAgent, "Opera") && !Contains(userAgent, "OPR") && !Contains(userAgent, "Trident") &&
    !Contains(userAgent, "Edge") && !Contains(userAgent, "Chrome") && !Contains(userAgent, "Safari")
  }

  /** The prefixes of the version pattern `getBrowserInfo` uses for each browser name. */
  function VersionPrefixes(name: string): seq<string> {
    if name == "Firefox" then ["Firefox/"]
    else if name == "Samsung Internet" then ["SamsungBrowser/"]
    else if name == "Opera" then ["Opera/", "OPR/"]
    else if name == "Internet Explorer" then ["rv:"]
    else if name == "Edge" then ["Edge/"]
    else if name == "Chrome" then ["Chrome/"]
    else if name == "Safari" then ["Version/"]
    else []
  }

  /** The name and version `getBrowserInfo` settles on: the first marker found in the
      user agent decides the name and the pattern for the version. */
  function Browser(userAgent: string): (b: (string, string))
    ensures b.0 in BrowserNames
    ensures b.1 == "Unknown" || IsVersion(b.1)
    ensures b.0 == "Firefox" <==> Contains(userAgent, "Firefox")
    ensures b.0 == "Samsung Internet" <==>
      !Contains(userAgent, "Firefox") && Contains(userAgent, "SamsungBrowser")
    ensures b.0 == "Opera" <==>
      !Contains(userAgent, "Firefox") && !Contains(userAgent, "SamsungBrowser") &&
      (Contains(userAgent, "Opera") || Contains(userAgent, "OPR"))
    ensures b.0 == "Internet Explorer" <==>
      !Contains(userAgent, "Firefox") && !Contains(userAgent, "SamsungBrowser") &&
      !Contains(userAgent, "Opera") && !Contains(userAgent, "OPR") && Contains(userAgent, "Trident")
    ensures b.0 == "Edge" <==>
      !Contains(userAgent, "Firefox") && !Contains(userAgent, "SamsungBrowser") &&
      !Contains(userAgent, "Opera") && !Contains(userAgent, "OPR") && !Contains(userAgent, "Trident") &&
      Contains(userAgent, "Edge")
    ensures b.0 == "Chrome" <==>
      !Contains(userAgent, "Firefox") && !Contains(userAgent, "SamsungBrowser") &&
      !Contains(userAgent, "Opera") && !Contains(userAgent, "OPR") && !Contains(userAgent, "Trident") &&
      !Contains(userAgent, "Edge") && Contains(userAgent, "Chrome")
    ensures b.0 == "Safari" <==>
      !Contains(userAgent, "Firefox") && !Contains(userAgent, "SamsungBrowser") &&
      !Contains(userAgent, "Opera") && !Contains(userAgent, "OPR") && !Contains(userAgent, "Trident") &&
      !Contains(userAgent, "Edge") && !Contains(userAgent, "Chrome") && Contains(userAgent, "Safari")
    ensures b.0 == "Unknown" <==> NoBrowserMarker(userAgent)
    ensures b.0 != "Unknown" ==> b.1 == VersionOr(userAgent, VersionPrefixes(b.0))
    ensures b.0 == "Unknown" ==> b.1 == "Unknown"
  {
    if Contains(userAgent, "Firefox") then
      ("Firefox", VersionOr(userAgent, ["Firefox/"]))
    else if Contains(userAgent, "SamsungBrowser") then
      ("Samsung Internet", VersionOr(userAgent, ["SamsungBrowser/"]))
    else if Contains(userAgent, "Opera") || Contains(userAgent, "OPR") then
      ("Opera", VersionOr(userAgent, ["Opera/", "OPR/"]))
    else if Contains(userAgent, "Trident") then
      ("Internet Explorer", VersionOr(userAgent, ["rv:"]))
    else if Contains(userAgent, "Edge") then
      ("Edge", VersionOr(userAgent, ["Edge/"]))
    else if Contains(userAgent, "Chrome") then
      ("Chrome", VersionOr(userAgent, ["Chrome/"]))
    else if Contains(userAgent, "Safari") then
      ("Safari", VersionOr(userAgent, ["Version/"]))
    else
      ("Unknown", "Unknown")
  }

  /** `getBrowserInfo`: the name, a space and the version. The version never holds a
      space, so it is the text after the result's last space. */
  function GetBrowserInfo(userAgent: string): (info: string)
    ensures StartsWith(info, Browser(userAgent).0 + " ")
    ensures info[|Browser(userAgent).0| + 1..] == Browser(userAgent).1
    ensures ' ' !in Browser(userAgent).1
  {
    var b := Browser(userAgent);
    assert ' ' !in b.1 by {
      if b.1 != "Unknown" {
        VersionHasNoSpace(b.1);
      }
    }
    b.0 + " " + b.1
  }

  lemma VersionHasNoSpace(v: string)
    requires IsVersion(v)
    ensures ' ' !in v
  {
    var n := DigitRun(v);
    forall i | 0 <= i < |v|
      ensures v[i] != ' '
    {
      if i > n {
        assert v[i] == v[n + 1..][i - n - 1];
      }
    }
  }

  /** Firefox is tested first: any user agent naming it is Firefox. */
  lemma FirefoxFirst(userAgent: string)
    requires Contains(userAgent, "Firefox")
    ensures Browser(userAgent).0 == "Firefox"
  {
  }

  /** Chrome's user agent also names Safari, and Chrome wins because it is tested
      first; the same holds for Edge over Chrome. */
  lemma ChromeBeforeSafari(userAgent: string)
    requires Contains(userAgent, "Chrome") && Contains(userAgent, "Safari")
    requires !Contains(userAgent, "Firefox") && !Contains(userAgent, "SamsungBrowser")
    requires !Contains(userAgent, "Opera") && !Contains(userAgent, "OPR")
    requires !Contains(userAgent, "Trident") && !Contains(userAgent, "Edge")
    ensures Browser(userAgent).0 == "Chrome"
  {
  }

  lemma EdgeBeforeChrome(userAgent: string)
    requires Contains(userAgent, "Edge") && Contains(userAgent, "Chrome")
    requires !Contains(userAgent, "Firefox") && !Contains(userAgent, "SamsungBrowser")
    requires !Contains(userAgent, "Opera") && !Contains(userAgent, "OPR") && !Contains(userAgent, "Trident")
    ensures Browser(userAgent).0 == "Edge"
  {
  }

  // ---------------------------------------------------------------------------
  // Sessions

  datatype SessionData = SessionData(
    dispositivo: string,
    navegador: Option<string>,
    ip: Option<string>,
    ubicacion: Option<string>,
    sistemaOperativo: Option<string>)

  datatype Session = Session(
    id: string,
    usuarioId: string,
    sessionToken: string,
    datosSesion: SessionData,
    fechaExpiracion: string,
    activa: bool)

  /** The body posted to create a session. */
  datatype SessionRequest = SessionRequest(usuarioId: string, datosSesion: SessionData)

  /** The data `createSession` describes the device with when it is given none: a web
      device of unknown address and place, with the detected browser and system. */
  function DefaultSessionData(userAgent: string, platform: string): (d: SessionData)
    ensures d.dispositivo == "web" && d.ip == Some("unknown") && d.ubicacion == Some("Unknown")
    ensures d.navegador == Some(GetBrowserInfo(userAgent))
    ensures d.sistemaOperativo == Some(GetOS(userAgent, platform))
  {
    SessionData("web", Some(GetBrowserInfo(userAgent)), Some("unknown"), Some("Unknown"),
                Some(GetOS(userAgent, platform)))
  }

  /** The request `createSession` posts: the given session data, or the default data
      when none is given. */
  function CreateSessionRequest(usuarioId: string, datosSesion: Option<SessionData>,
                                userAgent: string, platform: string): (req: SessionRequest)
    ensures req.usuarioId == usuarioId
    ensures datosSesion.Some? ==> req.datosSesion == datosSesion.value
    ensures datosSesion.None? ==> req.datosSesion == DefaultSessionData(userAgent, platform)
  {
    SessionRequest(usuarioId, datosSesion.GetOr(DefaultSessionData(userAgent, platform)))
  }

  /** `validateSession`: true exactly when the call succeeds and its `success` field is
      the boolean true; an absent or non-boolean field and every error give false.
      (`None` stands for a field that is absent or not a boolean.) */
  function ValidateSession(response: Result<Option<bool>, HttpError>): (valid: bool)
    ensures valid <==> response == Success(Some(true))
  {
    match response
    case Failure(_) => false
    case Success(success) => success == Some(true)
  }
}
