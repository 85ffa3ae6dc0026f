/**
 * `identify_user_agent`: the first `SugarLabs/[\d\.]+` token of a User-Agent
 * string tells whether the client runs the Sugar platform, and which version.
 * Both server variants define it identically.
 */
module UserAgent {
  import opened Wrappers

  const Prefix: string := "SugarLabs/"

  /** `[\d\.]`: an ASCII digit or a dot (the pattern carries no Unicode flag). */
  predicate IsVersionChar(c: char)
  {
    '0' <= c <= '9' || c == '.'
  }

  /** The pattern matches at `i`: the prefix, then at least one version character. */
  predicate MatchesAt(ua: string, i: int)
  {
    0 <= i && i + |Prefix| < |ua| && ua[i..i + |Prefix|] == Prefix && IsVersionChar(ua[i + |Prefix|])
  }

  /** The page's `sugar_platform` and `sugar_version`. */
  datatype Platform = Platform(sugarPlatform: bool, sugarVersion: Option<string>)

  /** Leftmost position at or after `i` where the pattern matches: where `re.findall` finds its first match. */
  function FindFrom(ua: string, i: nat): (r: Option<nat>)
    requires i <= |ua|
    ensures r.Some? ==> i <= r.value && MatchesAt(ua, r.value)
    ensures r.Some? ==> forall j :: i <= j < r.value ==> !MatchesAt(ua, j)
    ensures r.None? ==> forall j :: i <= j ==> !MatchesAt(ua, j)
    decreases |ua| - i
  {
    if i == |ua| then None
    else if MatchesAt(ua, i) then Some(i)
    else FindFrom(ua, i + 1)
  }

  /** End of the longest run of version characters starting at `j`: how far the greedy `+` reaches. */
  function RunEnd(s: string, j: nat): (e: nat)
    requires j <= |s|
    ensures j <= e <= |s|
    ensures forall k :: j <= k < e ==> IsVersionChar(s[k])
    ensures e == |s| || !IsVersionChar(s[e])
    decreases |s| - j
  {
    if j < |s| && IsVersionChar(s[j]) then RunEnd(s, j + 1) else j
  }

  /** `str.split(sep)`: the pieces between occurrences of `sep`, always at least one. */
  function Split(s: string, sep: char): (parts: seq<string>)
    ensures |parts| >= 1
  {
    if s == [] then [""]
    else
      var rest := Split(s[1..], sep);
      if s[0] == sep then [""] + rest else [[s[0]] + rest[0]] + rest[1..]
  }

  /** `identify_user_agent`: the version is `split("/")[1]` of the first matching token. */
  function IdentifyUserAgent(ua: string): (r: Platform)
    ensures r.sugarPlatform <==> r.sugarVersion.Some?
    ensures r.sugarPlatform <==> exists i :: MatchesAt(ua, i)
    ensures r.sugarVersion.Some? ==> '/' !in r.sugarVersion.value
    ensures r.sugarVersion.Some? ==>
              exists i :: MatchesAt(ua, i) && (forall j :: 0 <= j < i ==> !MatchesAt(ua, j)) &&
                          IsMaximalRunAt(ua, i + |Prefix|, r.sugarVersion.value)
  {
    match FindFrom(ua, 0)
    case None => Platform(false, None)
    case Some(i) =>
      var token := ua[i..RunEnd(ua, i + |Prefix|)];
      TokenSplits(ua, i);
      Platform(true, Some(Split(token, '/')[1]))
  }

  /** `v` is the whole run of version characters that starts at `start` in `ua`, and is not empty. */
  ghost predicate IsMaximalRunAt(ua: string, start: nat, v: string)
  {
    v != [] && start + |v| <= |ua| && ua[start..start + |v|] == v &&
    (forall c :: c in v ==> IsVersionChar(c)) &&
    (start + |v| == |ua| || !IsVersionChar(ua[start + |v|]))
  }

  /** The matched token splits on '/' into the product name and the version run. */
  lemma TokenSplits(ua: string, i: nat)
    requires MatchesAt(ua, i)
    ensures var e := RunEnd(ua, i + |Prefix|);
            i + |Prefix| < e &&
            Split(ua[i..e], '/') == ["SugarLabs", ua[i + |Prefix|..e]] &&
            IsMaximalRunAt(ua, i + |Prefix|, ua[i + |Prefix|..e])
  {
    var e := RunEnd(ua, i + |Prefix|);
    var run := ua[i + |Prefix|..e];
    assert forall c :: c in run ==> IsVersionChar(c);
    assert '/' !in run;
    assert ua[i..e] == ua[i..i + |Prefix|] + run;
    assert Prefix == "SugarLabs" + ['/'];
    SplitAtOnlySep("SugarLabs", run, '/');
  }

  /** A string free of `sep` is one piece. */
  lemma {:induction false} SplitWithoutSep(s: string, sep: char)
    requires sep !in s
    ensures Split(s, sep) == [s]
  {
    if s != [] {
      SplitWithoutSep(s[1..], sep);
      assert s[0] != sep;
      assert [s[0]] + s[1..] == s;
    }
  }

  /** Text with one `sep`, between two pieces free of it, splits into those two pieces. */
  lemma {:induction false} SplitAtOnlySep(a: string, b: string, sep: char)
    requires sep !in a && sep !in b
    ensures Split(a + [sep] + b, sep) == [a, b]
  {
    if a == [] {
      assert a + [sep] + b == [sep] + b;
      assert ([sep] + b)[1..] == b;
      SplitWithoutSep(b, sep);
    } else {
      assert (a + [sep] + b)[1..] == a[1..] + [sep] + b;
      SplitAtOnlySep(a[1..], b, sep);
      assert [a[0]] + a[1..] == a;
    }
  }

  /** A Sugar client's User-Agent is detected with its version. */
  lemma SugarScenario()
    ensures IdentifyUserAgent("SugarLabs/0.98") == Platform(true, Some("0.98"))
  {
    var ua := "SugarLabs/0.98";
    assert MatchesAt(ua, 0);
    assert FindFrom(ua, 0) == Some(0);
    assert RunEnd(ua, 10) == 14;
    TokenSplits(ua, 0);
    assert ua[10..14] == "0.98";
  }

  /** A browser's User-Agent is not. */
  lemma BrowserScenario()
    ensures IdentifyUserAgent("Mozilla/5.0") == Platform(false, None)
  {
    var ua := "Mozilla/5.0";
    assert !MatchesAt(ua, 0) by { assert ua[0] != Prefix[0]; }
  }
}
