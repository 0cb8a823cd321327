/** The URL of a request line, exactly: which targets the parser accepts, in terms
    of their characters. */
module HttpTarget {
  import opened HttpLines
  import opened HttpStep
  import opened HttpTypes
  import opened UrlDecompose
  import opened UrlSpec
  import opened UrlText

  /** Printable ASCII characters but the space. */
  predicate Visible(v: string) { forall i :: 0 <= i < |v| ==> 33 <= v[i] as int <= 126 }

  predicate Letters(v: string) { forall i :: 0 <= i < |v| ==> Letter(v[i]) }

  predicate ServerChar(c: char) { UserChar(c) || c == '[' || c == ']' || c == '@' }

  /** What may stand for the server: no `@` directly behind another. */
  predicate ServerName(v: string) {
    && (forall i :: 0 <= i < |v| ==> ServerChar(v[i]))
    && forall i :: 0 < i < |v| && v[i] == '@' ==> v[i - 1] != '@'
  }

  /** A request to the server itself begins with a slash or is an asterisk, and any
      printable characters may follow. */
  predicate OriginForm(m: Method, url: string) {
    m != CONNECT && url != [] && (url[0] == '/' || url[0] == '*') && Visible(url)
  }

  function Lead(m: Method, scheme: string): string { if m == CONNECT then "" else scheme + "://" }

  predicate SchemeOk(m: Method, scheme: string) { m == CONNECT || (scheme != [] && Letters(scheme)) }

  /** What follows the server begins with a slash or a question mark. */
  predicate RestOk(rest: string) { rest != [] ==> (rest[0] == '/' || rest[0] == '?') && Visible(rest) }

  /** Otherwise there is a server, behind a scheme unless the method is CONNECT. */
  predicate ServerForm(m: Method, url: string, scheme: string, server: string, rest: string) {
    && url == Lead(m, scheme) + server + rest
    && SchemeOk(m, scheme) && ServerName(server) && RestOk(rest)
    && server + rest != []
  }

  // ----- runs of the automaton -----

  lemma {:induction false} RunThen(s: State, v: string, w: string)
    ensures UrlRun(s, v + w) == UrlRun(UrlRun(s, v), w)
    decreases |w|
  {
    hide ParseUrlChar;
    if w == [] {
      assert v + w == v;
    } else {
      RunThen(s, v, w[..|w| - 1]);
      assert (v + w)[..|v + w| - 1] == v + w[..|w| - 1];
    }
  }

  lemma RunSnoc(s: State, v: string, ch: char)
    ensures UrlRun(s, v + [ch]) == ParseUrlChar(UrlRun(s, v), ch)
    ensures UrlRun(s, []) == s
  {
    hide ParseUrlChar;
    assert (v + [ch])[..|v|] == v;
  }

  predicate BehindServer(s: State) {
    s.ReqPath? || s.ReqQueryStringStart? || s.ReqQueryString? || s.ReqFragmentStart? || s.ReqFragment?
  }

  lemma UrlTable(c: char)
    ensures IsUrlChar(c) <==> 33 <= c as int <= 126 && c != '#' && c != '?'
  {
    CharTables(c);
  }

  lemma UserTable(c: char)
    ensures IsUserinfoChar(c) <==> UserChar(c)
  {
    CharTables(c);
  }

  lemma AlphaTable(c: char)
    ensures IsAlpha(c) <==> Letter(c)
  {
    CharTables(c);
  }

  /** Behind the server, every printable character leads on, and no other. */
  lemma BehindServerByte(s: State, ch: char)
    requires BehindServer(s)
    ensures var t := ParseUrlChar(s, ch);
      if 33 <= ch as int <= 126 then BehindServer(t) else t.Dead?
  {
    hide IsAlpha, ParseServerChar, IsUrlChar;
    UrlTable(ch);
  }

  lemma ServerByte(s: State, ch: char)
    requires InServer(s)
    ensures var t := ParseUrlChar(s, ch);
      if ch == '/' || ch == '?' then BehindServer(t)
      else if ServerChar(ch) && !(ch == '@' && s.ReqServerWithAt?) then
        t == (if ch == '@' then ReqServerWithAt else ReqServer)
      else t.Dead?
  {
    hide IsAlpha, IsUserinfoChar, IsUrlChar, UserChar, ParseQueryChar;
    UserTable(ch);
    BlankIsNoServer(ch);
  }

  lemma BlankIsNoServer(ch: char)
    ensures ch == ' ' || ch == CR || ch == LF || ch == '\t' || ch as int == 12 ==> !ServerChar(ch)
  {}

  lemma FrontByte(s: State, ch: char)
    ensures var t := ParseUrlChar(s, ch);
      && (s.ReqSpacesBeforeUrl? ==>
            t == if ch == '/' || ch == '*' then ReqPath else if Letter(ch) then ReqSchema else Dead)
      && (s.ReqSchema? ==> t == if Letter(ch) then ReqSchema else if ch == ':' then ReqSchemaSlash else Dead)
      && (s.ReqSchemaSlash? ==> t == if ch == '/' then ReqSchemaSlashSlash else Dead)
      && (s.ReqSchemaSlashSlash? ==> t == if ch == '/' then ReqServerStart else Dead)
      && (s.Dead? ==> t == Dead)
  {
    hide IsAlpha, ParseServerChar, ParseQueryChar, IsUrlChar;
    AlphaTable(ch);
  }

  // ----- these forms are accepted -----

  lemma {:induction false} RestRuns(s: State, v: string)
    requires BehindServer(s) && Visible(v)
    ensures BehindServer(UrlRun(s, v))
  {
    hide ParseUrlChar, BehindServer;
    if v != [] {
      RestRuns(s, v[..|v| - 1]);
      BehindServerByte(UrlRun(s, v[..|v| - 1]), v[|v| - 1]);
    }
  }

  lemma {:induction false} ServerRuns(v: string)
    requires ServerName(v)
    ensures UrlRun(ReqServerStart, v)
            == if v == [] then ReqServerStart else if v[|v| - 1] == '@' then ReqServerWithAt else ReqServer
  {
    hide ParseUrlChar, ServerChar;
    if v != [] {
      var n := |v| - 1;
      ServerRuns(v[..n]);
      NoDelimiter(v[n]);
      ServerByte(UrlRun(ReqServerStart, v[..n]), v[n]);
    }
  }

  lemma NoDelimiter(c: char)
    requires ServerChar(c)
    ensures c != '/' && c != '?'
  {}

  lemma {:induction false} SchemeRuns(v: string)
    requires v != [] && Letters(v)
    ensures UrlRun(ReqSpacesBeforeUrl, v) == ReqSchema
  {
    hide ParseUrlChar;
    var n := |v| - 1;
    FrontByte(UrlRun(ReqSpacesBeforeUrl, v[..n]), v[n]);
    if n > 0 { SchemeRuns(v[..n]); } else { LetterIsNoSlash(v[0]); }
  }

  lemma LetterIsNoSlash(c: char)
    requires Letter(c)
    ensures c != '/' && c != '*'
  {}

  lemma LeadRuns(m: Method, scheme: string)
    requires SchemeOk(m, scheme)
    ensures UrlRun(UrlStart(m), Lead(m, scheme)) == ReqServerStart
  {
    hide ParseUrlChar, Letters;
    if m != CONNECT {
      SchemeRuns(scheme);
      var s := ReqSpacesBeforeUrl;
      RunSnoc(s, scheme, ':');
      RunSnoc(s, scheme + [':'], '/');
      RunSnoc(s, scheme + [':'] + ['/'], '/');
      FrontByte(ReqSchema, ':');
      FrontByte(ReqSchemaSlash, '/');
      FrontByte(ReqSchemaSlashSlash, '/');
      assert scheme + [':'] + ['/'] + ['/'] == scheme + "://";
    }
  }

  lemma ServerFormOk(m: Method, url: string, scheme: string, server: string, rest: string)
    requires ServerForm(m, url, scheme, server, rest)
    ensures UrlOk(m, url)
  {
    hide ParseUrlChar, Lead, ServerName, SchemeOk, UrlRun;
    LeadRuns(m, scheme);
    RunThen(UrlStart(m), Lead(m, scheme), server);
    RunThen(UrlStart(m), Lead(m, scheme) + server, rest);
    ServerRuns(server);
    var s := UrlRun(ReqServerStart, server);
    RunSnoc(s, [], ' ');
    if rest != [] { RestBegins(s, rest); }
  }

  /** The delimiter, and what is behind it. */
  lemma RestBegins(s: State, rest: string)
    requires InServer(s) && rest != [] && RestOk(rest)
    ensures BehindServer(UrlRun(s, rest))
  {
    hide ParseUrlChar, UrlRun;
    var d, w := rest[0], rest[1..];
    assert rest == [d] + w && [] + [d] == [d];
    RunSnoc(s, [], d);
    ServerByte(s, d);
    RunThen(s, [d], w);
    assert forall i :: 0 <= i < |w| ==> w[i] == rest[i + 1];
    RestRuns(ParseUrlChar(s, d), w);
  }

  lemma OriginFormOk(m: Method, url: string)
    requires OriginForm(m, url)
    ensures UrlOk(m, url)
  {
    hide ParseUrlChar, UrlRun;
    var d, w := url[0], url[1..];
    assert url == [d] + w && [] + [d] == [d];
    RunSnoc(ReqSpacesBeforeUrl, [], d);
    FrontByte(ReqSpacesBeforeUrl, d);
    RunThen(ReqSpacesBeforeUrl, [d], w);
    assert forall i :: 0 <= i < |w| ==> w[i] == url[i + 1];
    RestRuns(ReqPath, w);
  }

  // ----- and no others -----

  /** What a state says about the URL read so far. */
  predicate ReadSoFar(m: Method, s: State, url: string, scheme: string, server: string, rest: string) {
    if s.ReqSpacesBeforeUrl? then m != CONNECT && url == []
    else if s.ReqSchema? then m != CONNECT && url == scheme && SchemeOk(m, scheme)
    else if s.ReqSchemaSlash? then m != CONNECT && url == scheme + ":" && SchemeOk(m, scheme)
    else if s.ReqSchemaSlashSlash? then m != CONNECT && url == scheme + ":/" && SchemeOk(m, scheme)
    else if InServer(s) then
      && url == Lead(m, scheme) + server && SchemeOk(m, scheme) && ServerName(server) && rest == []
      && (s.ReqServerStart? <==> server == [])
      && (s.ReqServerWithAt? <==> server != [] && server[|server| - 1] == '@')
    else
      BehindServer(s) && (OriginForm(m, url) || (rest != [] && ServerForm(m, url, scheme, server, rest)))
  }

  lemma {:induction false} TargetSound(m: Method, url: string)
    returns (scheme: string, server: string, rest: string)
    ensures var s := UrlRun(UrlStart(m), url); s.Dead? || ReadSoFar(m, s, url, scheme, server, rest)
  {
    hide ParseUrlChar, ReadSoFar;
    scheme, server, rest := [], [], [];
    if url == [] {
      NothingRead(m);
    } else {
      var n := |url| - 1;
      var front, ch := url[..n], url[n];
      assert url == front + [ch];
      scheme, server, rest := TargetSound(m, front);
      var s := UrlRun(UrlStart(m), front);
      if s.Dead? {
        FrontByte(s, ch);
      } else if BehindServer(s) {
        if !ParseUrlChar(s, ch).Dead? { rest := RestSound(m, s, front, scheme, server, rest, ch); }
      } else if InServer(s) {
        if !ParseUrlChar(s, ch).Dead? { server, rest := ServerSound(m, s, front, scheme, server, rest, ch); }
      } else if !ParseUrlChar(s, ch).Dead? {
        scheme := FrontSound(m, s, front, scheme, server, rest, ch);
        server, rest := [], [];
      }
    }
  }

  lemma NothingRead(m: Method)
    ensures ReadSoFar(m, UrlStart(m), [], [], [], [])
  {}

  lemma RestSound(m: Method, s: State, url: string, scheme: string, server: string, rest: string, ch: char)
    returns (more: string)
    requires BehindServer(s) && ReadSoFar(m, s, url, scheme, server, rest) && !ParseUrlChar(s, ch).Dead?
    ensures ReadSoFar(m, ParseUrlChar(s, ch), url + [ch], scheme, server, more)
  {
    hide ParseUrlChar, Lead, SchemeOk, ServerName;
    BehindServerByte(s, ch);
    BehindIsLast(s);
    BehindIsLast(ParseUrlChar(s, ch));
    more := if OriginForm(m, url) then [] else rest + [ch];
    if !OriginForm(m, url) {
      assert Lead(m, scheme) + server + rest + [ch] == Lead(m, scheme) + server + (rest + [ch]);
    }
  }

  lemma BehindIsLast(s: State)
    requires BehindServer(s)
    ensures !s.ReqSpacesBeforeUrl? && !s.ReqSchema? && !s.ReqSchemaSlash? && !s.ReqSchemaSlashSlash? && !InServer(s)
  {}

  lemma ServerSound(m: Method, s: State, url: string, scheme: string, server: string, rest: string, ch: char)
    returns (more: string, next: string)
    requires InServer(s) && ReadSoFar(m, s, url, scheme, server, rest) && !ParseUrlChar(s, ch).Dead?
    ensures ReadSoFar(m, ParseUrlChar(s, ch), url + [ch], scheme, more, next)
  {
    hide ParseUrlChar, Lead, SchemeOk, ServerChar;
    ServerByte(s, ch);
    if ch == '/' || ch == '?' {
      BehindIsLast(ParseUrlChar(s, ch));
      more, next := server, [ch];
      assert url + [ch] == Lead(m, scheme) + server + [ch];
    } else {
      more, next := server + [ch], [];
      assert Lead(m, scheme) + server + [ch] == Lead(m, scheme) + (server + [ch]);
    }
  }

  lemma LettersMore(v: string, ch: char)
    ensures Letters(v) && Letter(ch) ==> Letters(v + [ch]) && Letters([ch])
    ensures Letter(ch) ==> Letters([ch])
  {}

  lemma FrontSound(m: Method, s: State, url: string, scheme: string, server: string, rest: string, ch: char)
    returns (more: string)
    requires !InServer(s) && !BehindServer(s) && ReadSoFar(m, s, url, scheme, server, rest)
    requires !ParseUrlChar(s, ch).Dead?
    ensures ReadSoFar(m, ParseUrlChar(s, ch), url + [ch], more, [], [])
  {
    hide ParseUrlChar, Letters;
    FrontByte(s, ch);
    LettersMore(scheme, ch);
    more := scheme;
    if s.ReqSpacesBeforeUrl? {
      assert url + [ch] == [ch];
      more := [ch];
    } else if s.ReqSchema? {
      if ch == ':' { assert url + [ch] == scheme + ":"; } else { more := url + [ch]; }
    } else if s.ReqSchemaSlash? {
      assert url + [ch] == scheme + ":/";
    } else {
      assert ServerName([]) && Lead(m, scheme) + [] == Lead(m, scheme);
      assert scheme + ":/" + ['/'] == scheme + "://";
    }
  }

  /** The URLs that may stand in a request line are exactly these. */
  lemma TargetExact(m: Method, url: string)
    ensures UrlOk(m, url) <==>
              OriginForm(m, url)
              || exists scheme: string, server: string, rest: string :: ServerForm(m, url, scheme, server, rest)
  {
    hide UrlRun, OriginForm, ServerForm;
    if OriginForm(m, url) {
      OriginFormOk(m, url);
    } else if scheme: string, server: string, rest: string :| ServerForm(m, url, scheme, server, rest) {
      ServerFormOk(m, url, scheme, server, rest);
    } else {
      var scheme, server, rest := TargetSound(m, url);
      if UrlOk(m, url) { Closed(m, url, scheme, server, rest); }
    }
  }

  lemma Closed(m: Method, url: string, scheme: string, server: string, rest: string)
    requires UrlOk(m, url) && ReadSoFar(m, UrlRun(UrlStart(m), url), url, scheme, server, rest)
    ensures OriginForm(m, url) || ServerForm(m, url, scheme, server, rest)
  {
    hide UrlRun, Lead, ServerName, SchemeOk;
    if InServer(UrlRun(UrlStart(m), url)) { assert Lead(m, scheme) + server + [] == url; }
  }

  /** Every URL that `http_parser_parse_url` accepts may stand in a request line. */
  lemma AcceptedIsTarget(m: Method, url: string)
    requires url != [] && Accepted(m == CONNECT, url)
    ensures UrlOk(m, url)
  {
    hide AllClasses, UrlRun, ReadSoFar, HostEnd, UrlClasses, PortValue;
    var s := UrlRun(UrlStart(m), url);
    var scheme, server, rest := TargetSound(m, url);
    if !AcceptsUrlEnd(s) {
      Unfinished(m, s, url, scheme, server, rest);
      assert m != CONNECT;
      assert StateAt(false, url, |url|) == s by { assert url[..|url|] == url; }
      SchemaAlone(url, |url|);
    }
  }

  lemma Unfinished(m: Method, s: State, url: string, scheme: string, server: string, rest: string)
    requires ReadSoFar(m, s, url, scheme, server, rest) && !AcceptsUrlEnd(s) && url != []
    ensures m != CONNECT && 1 <= UrlRank(s) <= 4
  {
    hide SchemeOk, ServerName, OriginForm, ServerForm;
  }
}
