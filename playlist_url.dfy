/** Acceptance of a playlist URL and extraction of its playlist id
    (index.js:15, index.js:69, index.js:112).

    The program tests the URL against the anchored pattern
      ^(https?://)?(www\.)?(music\.)?youtube\.com/playlist\?list=([a-zA-Z0-9_-]+)
    and, separately, requires it to start with "http". There is no regular
    expression engine here, so the pattern is a hand-written recogniser. Each
    optional group is taken whenever it is present: skipping a present group can
    never lead to a match, because what must follow it starts with a different
    character ('h' cannot start "www.", "music." or "youtube", and so on). */
module PlaylistUrl {
  import opened Wrappers

  const PlaylistPath: string := "youtube.com/playlist?"
  const Marker: string := PlaylistPath + "list="

  /** A character of `[a-zA-Z0-9_-]`. */
  predicate IsIdChar(c: char) {
    ('a' <= c <= 'z') || ('A' <= c <= 'Z') || ('0' <= c <= '9') || c == '_' || c == '-'
  }

  predicate AllIdChars(s: string) {
    forall i :: 0 <= i < |s| ==> IsIdChar(s[i])
  }

  /** `[a-zA-Z0-9_-]+` taken greedily: the longest prefix of `s` made of id characters. */
  function IdRun(s: string): (r: string)
    ensures r <= s && AllIdChars(r)
    ensures |r| == |s| || !IsIdChar(s[|r|])
  {
    if s != [] && IsIdChar(s[0]) then [s[0]] + IdRun(s[1..]) else []
  }

  /** The greedy run over `id + rest` is exactly `id` when `rest` cannot extend it. */
  lemma {:induction false} IdRunExact(id: string, rest: string)
    requires AllIdChars(id)
    requires rest == [] || !IsIdChar(rest[0])
    ensures IdRun(id + rest) == id
  {
    if id != [] {
      assert (id + rest)[1..] == id[1..] + rest;
      IdRunExact(id[1..], rest);
    } else {
      assert id + rest == rest;
    }
  }

  /** How the pattern splits a URL it matches: the three optional groups, the
      captured id (group 4) and the unconstrained text after it. */
  datatype Match = Match(scheme: string, www: string, music: string, id: string, rest: string)

  function Join(m: Match): string {
    m.scheme + (m.www + (m.music + (Marker + (m.id + m.rest))))
  }

  /** A split the pattern can produce: each group present or absent, a non-empty
      id of id characters, and an id that is maximal (the `+` is greedy). */
  predicate WellFormed(m: Match) {
    && (m.scheme == "" || m.scheme == "http://" || m.scheme == "https://")
    && (m.www == "" || m.www == "www.")
    && (m.music == "" || m.music == "music.")
    && m.id != [] && AllIdChars(m.id)
    && (m.rest == [] || !IsIdChar(m.rest[0]))
  }

  /** An optional literal group `(p)?`: `p` when the text starts with it, else nothing. */
  function OptionalGroup(s: string, p: string): (g: string)
    ensures g == "" || g == p
    ensures g <= s
  {
    if p <= s then p else ""
  }

  /** The scheme group `(https?://)?`. */
  function SchemeGroup(url: string): (g: string)
    ensures g == "" || g == "http://" || g == "https://"
    ensures g <= url
  {
    if "https://" <= url then "https://" else OptionalGroup(url, "http://")
  }

  lemma Split(s: string, g: string)
    requires g <= s
    ensures s == g + s[|g|..]
  {
  }

  /** What the pattern requires after the optional groups: the marker, then a
      greedy non-empty id. */
  function MatchTail(s3: string): (r: Option<(string, string)>)
    ensures r.Some? ==> s3 == Marker + (r.value.0 + r.value.1)
    ensures r.Some? ==> r.value.0 != [] && AllIdChars(r.value.0)
    ensures r.Some? ==> r.value.1 == [] || !IsIdChar(r.value.1[0])
  {
    if Marker <= s3 && IdRun(s3[|Marker|..]) != [] then
      var id := IdRun(s3[|Marker|..]);
      var rest := s3[|Marker| + |id|..];
      assert s3 == Marker + (id + rest) by {
        Split(s3, Marker);
        Split(s3[|Marker|..], id);
      }
      Some((id, rest))
    else
      None
  }

  /** `urlRegex.exec(url)`: the match of the pattern at the start of `url`, if any. */
  function MatchPattern(url: string): (r: Option<Match>)
    ensures r.Some? ==> WellFormed(r.value) && Join(r.value) == url
  {
    var scheme := SchemeGroup(url);
    var s1 := url[|scheme|..];
    var www := OptionalGroup(s1, "www.");
    var s2 := s1[|www|..];
    var music := OptionalGroup(s2, "music.");
    var s3 := s2[|music|..];
    match MatchTail(s3)
    case None => None
    case Some((id, rest)) =>
      assert url == scheme + (www + (music + s3)) by {
        Split(s2, music);
        Split(s1, www);
        Split(url, scheme);
      }
      Some(Match(scheme, www, music, id, rest))
  }

  lemma GroupPresent(p: string, s: string)
    ensures OptionalGroup(p + s, p) == p && (p + s)[|p|..] == s
  {
  }

  lemma GroupAbsent(p: string, s: string)
    requires p != [] && s != [] && s[0] != p[0]
    ensures OptionalGroup(s, p) == ""
  {
  }

  /** The first character after the scheme group: that of "www.", "music." or the marker. */
  lemma AfterSchemeStart(m: Match)
    requires WellFormed(m)
    ensures var t1 := m.www + (m.music + (Marker + (m.id + m.rest)));
      t1[0] == 'w' || t1[0] == 'm' || t1[0] == 'y'
  {
    assert Marker[0] == 'y';
  }

  lemma SchemeRecovered(m: Match)
    requires WellFormed(m)
    ensures var t1 := m.www + (m.music + (Marker + (m.id + m.rest)));
      SchemeGroup(m.scheme + t1) == m.scheme && (m.scheme + t1)[|m.scheme|..] == t1
  {
    var t1 := m.www + (m.music + (Marker + (m.id + m.rest)));
    var url := m.scheme + t1;
    AfterSchemeStart(m);
    if m.scheme == "https://" {
      GroupPresent("https://", t1);
    } else if m.scheme == "http://" {
      assert url[4] == ':';
      GroupPresent("http://", t1);
    } else {
      GroupAbsent("https://", url);
      GroupAbsent("http://", url);
    }
  }

  lemma WwwRecovered(m: Match)
    requires WellFormed(m)
    ensures var t2 := m.music + (Marker + (m.id + m.rest));
      OptionalGroup(m.www + t2, "www.") == m.www && (m.www + t2)[|m.www|..] == t2
  {
    var t2 := m.music + (Marker + (m.id + m.rest));
    assert Marker[0] == 'y';
    assert t2[0] == 'm' || t2[0] == 'y';
    if m.www == "" { GroupAbsent("www.", t2); } else { GroupPresent("www.", t2); }
  }

  lemma MusicRecovered(m: Match)
    requires WellFormed(m)
    ensures var t3 := Marker + (m.id + m.rest);
      OptionalGroup(m.music + t3, "music.") == m.music && (m.music + t3)[|m.music|..] == t3
  {
    var t3 := Marker + (m.id + m.rest);
    assert Marker[0] == 'y';
    assert t3[0] == 'y';
    if m.music == "" { GroupAbsent("music.", t3); } else { GroupPresent("music.", t3); }
  }

  lemma TailRecovered(m: Match)
    requires WellFormed(m)
    ensures MatchTail(Marker + (m.id + m.rest)) == Some((m.id, m.rest))
  {
    GroupPresent(Marker, m.id + m.rest);
    IdRunExact(m.id, m.rest);
    GroupPresent(m.id, m.rest);
  }

  /** The pattern recovers every split it can produce: together with the
      postcondition of MatchPattern, MatchPattern(url) == Some(m) holds exactly
      when url == Join(m) and m is well formed. */
  lemma MatchPatternComplete(m: Match)
    requires WellFormed(m)
    ensures MatchPattern(Join(m)) == Some(m)
  {
    SchemeRecovered(m);
    WwwRecovered(m);
    MusicRecovered(m);
    TailRecovered(m);
  }

  /** The URL check of index.js:69: the URL starts with "http" and matches the
      pattern. A URL is accepted exactly when it is "http://" or "https://",
      then optionally "www.", then optionally "music.", then
      "youtube.com/playlist?list=", then a non-empty run of id characters, then
      any text not continuing that run. */
  predicate Accepts(url: string): (b: bool)
    ensures b <==> exists m :: WellFormed(m) && m.scheme != "" && Join(m) == url
  {
    UrlTestIff(url);
    "http" <= url && MatchPattern(url).Some?
  }

  /** A URL passing both tests has its scheme group: the "http" test rules out
      the URLs the pattern alone would take without one. */
  lemma AcceptedHasScheme(url: string)
    requires "http" <= url && MatchPattern(url).Some?
    ensures MatchPattern(url).value.scheme != ""
  {
    var m := MatchPattern(url).value;
    var t1 := m.www + (m.music + (Marker + (m.id + m.rest)));
    AfterSchemeStart(m);
    assert url == m.scheme + t1;
    assert url[0] == 'h';
    if m.scheme == "" {
      assert false;
    }
  }

  lemma SchemeStartsHttp(scheme: string)
    requires scheme == "http://" || scheme == "https://"
    ensures |scheme| >= 4 && scheme[..4] == "http"
  {
  }

  /** Every split with a scheme group, joined, passes both tests. */
  lemma JoinAccepted(m: Match)
    requires WellFormed(m) && m.scheme != ""
    ensures "http" <= Join(m) && MatchPattern(Join(m)).Some?
  {
    MatchPatternComplete(m);
    SchemeStartsHttp(m.scheme);
    var t1 := m.www + (m.music + (Marker + (m.id + m.rest)));
    assert "http" <= m.scheme;
    assert m.scheme <= m.scheme + t1;
    PrefixTransitive("http", m.scheme, Join(m));
  }

  lemma PrefixTransitive(a: string, b: string, c: string)
    requires a <= b && b <= c
    ensures a <= c
  {
    assert c[..|a|] == c[..|b|][..|a|];
  }

  /** The two tests of index.js:69 hold together exactly for the joins of
      well-formed splits with a scheme group. */
  lemma UrlTestIff(url: string)
    ensures ("http" <= url && MatchPattern(url).Some?) <==>
      exists m :: WellFormed(m) && m.scheme != "" && Join(m) == url
  {
    if "http" <= url && MatchPattern(url).Some? {
      AcceptedHasScheme(url);
      var m := MatchPattern(url).value;
      assert WellFormed(m) && m.scheme != "" && Join(m) == url;
    }
    if exists m :: WellFormed(m) && m.scheme != "" && Join(m) == url {
      var m :| WellFormed(m) && m.scheme != "" && Join(m) == url;
      JoinAccepted(m);
    }
  }

  /** The unanchored `list=` search of index.js:112: the id after the first
      "list=" that is followed by at least one id character. None stands for the
      `null` match, on which the program would throw. */
  function FindListId(s: string): (r: Option<string>)
    ensures r.Some? ==> r.value != [] && AllIdChars(r.value)
    decreases |s|
  {
    if s == [] then None
    else if "list=" <= s && IdRun(s[5..]) != [] then Some(IdRun(s[5..]))
    else FindListId(s[1..])
  }

  /** No "list=" can start inside a prefix `x` that holds no '=' when the next
      four characters hold none either, so the search skips all of `x`. */
  lemma {:induction false} FindListIdSkips(x: string, s: string)
    requires '=' !in x
    requires |s| >= 4 && '=' !in s[..4]
    ensures FindListId(x + s) == FindListId(s)
  {
    if x != [] {
      var t := x + s;
      assert !("list=" <= t) by {
        if |x| > 4 {
          assert t[4] == x[4];
        } else {
          assert t[4] == s[4 - |x|] == s[..4][4 - |x|];
        }
      }
      assert t[1..] == x[1..] + s;
      FindListIdSkips(x[1..], s);
    } else {
      assert x + s == s;
    }
  }

  lemma Associative(a: string, b: string, c: string)
    ensures (a + b) + c == a + (b + c)
  {
  }

  /** Nothing the pattern matches before "list=" holds an '='. */
  lemma NoEqualsBeforeList(m: Match)
    requires WellFormed(m)
    ensures '=' !in m.scheme + (m.www + (m.music + PlaylistPath))
  {
    assert '=' !in PlaylistPath;
    assert '=' !in m.music + PlaylistPath;
    assert '=' !in m.www + (m.music + PlaylistPath);
  }

  /** For an accepted URL the id handed to the playlist lookup is the id the
      validation pattern captured: non-empty, made of id characters, and the
      maximal run after the first "list=". */
  lemma ListIdOfAccepted(url: string)
    requires Accepts(url)
    ensures FindListId(url) == Some(MatchPattern(url).value.id)
  {
    var m := MatchPattern(url).value;
    var head := m.scheme + (m.www + (m.music + PlaylistPath));
    var tail := "list=" + (m.id + m.rest);
    assert url == head + tail by {
      var a := PlaylistPath;
      Associative(a, "list=", m.id + m.rest);
      Associative(m.music, a, tail);
      Associative(m.www, m.music + a, tail);
      Associative(m.scheme, m.www + (m.music + a), tail);
    }
    NoEqualsBeforeList(m);
    assert tail[..4] == "list";
    FindListIdSkips(head, tail);
    assert FindListId(tail) == Some(m.id) by {
      GroupPresent("list=", m.id + m.rest);
      IdRunExact(m.id, m.rest);
    }
  }
}
