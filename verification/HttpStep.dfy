/** One pass through the switch of `http_parser_execute` (strict mode): what a
    byte does to the record, which callbacks it makes, and whether the byte is
    consumed, re-executed, refused, or ends the call. */
module HttpStep {
  import opened Decimals
  import opened HttpTypes
  import opened Options

  datatype Control = Consume | Again | Fail(errno: Errno) | Exit

  /** `reset` says that `nread` was set to zero. A data callback is given byte
      by byte: `Data(k, [c])` when a byte becomes part of `k`, and `Data(k, [])`
      where the source calls `CALLBACK_DATA(k)`, which shows when `k` is empty.
      A body that is reported is never empty, so it needs no such event. */
  datatype Out = Out(p: Rec, ev: seq<Event>, ctl: Control, reset: bool)

  function Go(p: Rec): Out { Out(p, [], Consume, false) }
  function GoWith(p: Rec, e: Event): Out { Out(p, [e], Consume, false) }
  function Redo(p: Rec): Out { Out(p, [], Again, false) }
  function RedoWith(p: Rec, e: Event): Out { Out(p, [e], Again, false) }
  function Refuse(p: Rec, e: Errno): Out { Out(p, [], Fail(e), false) }

  // ----- the invariant of the record -----

  const CONNECTION := "connection"
  const PROXY_CONNECTION := "proxy-connection"
  const CONTENT_LENGTH := "content-length"
  const TRANSFER_ENCODING := "transfer-encoding"
  const UPGRADE := "upgrade"
  const CHUNKED := "chunked"
  const KEEP_ALIVE := "keep-alive"
  const CLOSE := "close"

  /** Header states that can be current while a header name is read, with the
      matcher index each of them implies. */
  predicate NameStateOk(h: HeaderState, index: nat) {
    match h
    case General => true
    case C => index == 0
    case CO => index == 1
    case CON => index == 2
    case MatchingConnection => 3 <= index < 9
    case MatchingProxyConnection => index < 15
    case MatchingContentLength => 3 <= index < 13
    case MatchingTransferEncoding => index < 16
    case MatchingUpgrade => index < 6
    case Connection => true
    case ContentLength => true
    case TransferEncoding => true
    case Upgrade => true
    case _ => false
  }

  /** The same while a header value is read. */
  predicate ValueStateOk(h: HeaderState, index: nat) {
    match h
    case General => true
    case ContentLength => true
    case MatchingChunked => index < 6
    case MatchingTokenStart => index == 0
    case MatchingKeepAlive => index < 9
    case MatchingClose => index < 4
    case MatchingTokenUpgrade => index < 6
    case MatchingToken => true
    case Chunked => true
    case KeepAlive => true
    case Close => true
    case TokenUpgrade => true
    case _ => false
  }

  /** Nothing is known of the message's header yet. */
  predicate Unset(p: Rec) { p.flags == NO_FLAGS && p.contentLength == ULLONG_MAX }

  /** What the state alone implies. Everything the C code asserts follows. */
  predicate StateInv(p: Rec) {
    if p.state.ReqMethod? then p.index <= |MethodString(p.meth)| && p.ptype.Request? && Unset(p)
    else if p.state.ReqSpacesBeforeUrl? || InUrl(p.state) then p.ptype.Request? && Unset(p)
    else if p.state.ResOrRespH? then Unset(p)
    else if p.state.StartReq? then p.ptype.Request?
    else if p.state.HeaderField? then NameStateOk(p.hstate, p.index)
    else if p.state.HeaderValueDiscardWs? then NameStateOk(p.hstate, p.index)
    else if p.state.HeaderValueDiscardWsAlmostDone? then NameStateOk(p.hstate, p.index)
    else if p.state.HeaderValueDiscardLws? then NameStateOk(p.hstate, p.index)
    else if p.state.HeaderValue? then ValueStateOk(p.hstate, p.index)
    else if p.state.HeaderAlmostDone? then ValueStateOk(p.hstate, p.index)
    else if p.state.HeaderValueLws? then ValueStateOk(p.hstate, p.index)
    else if p.state.HeaderValueStart? then ValueStateOk(p.hstate, p.index)
    else if p.state.ChunkSizeStart? then p.flags.chunked && !p.flags.trailing
    else if p.state.ChunkSize? then p.flags.chunked && !p.flags.trailing && p.contentLength < ULLONG_MAX
    else if p.state.ChunkParameters? then p.flags.chunked && !p.flags.trailing && p.contentLength < ULLONG_MAX
    else if p.state.ChunkSizeAlmostDone? then p.flags.chunked && !p.flags.trailing && p.contentLength < ULLONG_MAX
    else if p.state.ChunkData? then p.flags.chunked && !p.flags.trailing && 0 < p.contentLength < ULLONG_MAX
    else if p.state.ChunkDataAlmostDone? then p.flags.chunked && !p.flags.trailing && p.contentLength == 0
    else if p.state.ChunkDataDone? then p.flags.chunked && !p.flags.trailing
    else if p.state.BodyIdentity? then 0 < p.contentLength < ULLONG_MAX
    else if p.state.HeadersDone? then !p.flags.trailing
    else true
  }

  /** The widths of the C bit fields are never exceeded either: 7 bits for
      `index`, 64 for `content_length`, 16 for `status_code`. */
  predicate Inv(p: Rec) {
    && StateInv(p)
    && p.index <= 17 && 0 <= p.contentLength <= ULLONG_MAX && p.status <= 999
    && p.major <= 9 && p.minor <= 9
  }

  // ----- end of message -----

  /** `http_message_needs_eof` */
  predicate NeedsEof(p: Rec) {
    && !p.ptype.Request?
    && !(p.status / 100 == 1 || p.status == 204 || p.status == 304 || p.flags.skipBody)
    && !(p.flags.chunked || p.contentLength != ULLONG_MAX)
  }

  /** `http_should_keep_alive` */
  predicate ShouldKeepAlive(p: Rec) {
    && (if p.major > 0 && p.minor > 0 then !p.flags.close else p.flags.keepAlive)
    && !NeedsEof(p)
  }

  /** `NEW_MESSAGE()` */
  function NewMessage(p: Rec): State {
    if !ShouldKeepAlive(p) then Dead
    else if p.ptype.Request? then StartReq
    else StartRes
  }

  // ----- start line -----

  function FirstMethod(ch: char): Option<Method> {
    match ch
    case 'A' => Some(ACL) case 'B' => Some(BIND) case 'C' => Some(CONNECT) case 'D' => Some(DELETE)
    case 'G' => Some(GET) case 'H' => Some(HEAD) case 'L' => Some(LOCK) case 'M' => Some(MKCOL)
    case 'N' => Some(NOTIFY) case 'O' => Some(OPTIONS) case 'P' => Some(POST) case 'R' => Some(REPORT)
    case 'S' => Some(SUBSCRIBE) case 'T' => Some(TRACE) case 'U' => Some(UNLOCK)
    case _ => None
  }

  /** The `XX` table: the method to switch to when `ch` is read at `index`. */
  function OtherMethod(m: Method, index: nat, ch: char): Option<Method> {
    match m
    case POST => if index == 1 && ch == 'U' then Some(PUT)
                 else if index == 1 && ch == 'A' then Some(PATCH)
                 else if index == 1 && ch == 'R' then Some(PROPFIND) else None
    case PUT => if index == 2 && ch == 'R' then Some(PURGE) else None
    case CONNECT => if index == 1 && ch == 'H' then Some(CHECKOUT)
                    else if index == 2 && ch == 'P' then Some(COPY) else None
    case MKCOL => if index == 1 && ch == 'O' then Some(MOVE)
                  else if index == 1 && ch == 'E' then Some(MERGE)
                  else if index == 1 && ch == '-' then Some(MSEARCH)
                  else if index == 2 && ch == 'A' then Some(MKACTIVITY)
                  else if index == 3 && ch == 'A' then Some(MKCALENDAR) else None
    case SUBSCRIBE => if index == 1 && ch == 'E' then Some(SEARCH) else None
    case REPORT => if index == 2 && ch == 'B' then Some(REBIND) else None
    case PROPFIND => if index == 4 && ch == 'P' then Some(PROPPATCH) else None
    case LOCK => if index == 1 && ch == 'I' then Some(LINK) else None
    case UNLOCK => if index == 2 && ch == 'S' then Some(UNSUBSCRIBE)
                   else if index == 2 && ch == 'B' then Some(UNBIND)
                   else if index == 3 && ch == 'I' then Some(UNLINK) else None
    case _ => None
  }

  /** Fields reset at the first byte of a message. */
  function Fresh(p: Rec): Rec { p.(flags := NO_FLAGS, contentLength := ULLONG_MAX) }

  function StepResLine(p: Rec, ch: char): (o: Out) {
    if p.state.Dead? then
      if ch == CR || ch == LF then Go(p) else Refuse(p, ClosedConnection)
    else if p.state.StartReqOrRes? then
      if ch == CR || ch == LF then Go(p)
      else if ch == 'H' then GoWith(Fresh(p).(state := ResOrRespH), MessageBegin)
      else Redo(Fresh(p).(ptype := Request, state := StartReq))
    else if p.state.ResOrRespH? then
      if ch == 'T' then Go(p.(ptype := Response, state := ResHT))
      else if ch != 'E' then Refuse(p, InvalidConstant)
      else Go(p.(ptype := Request, meth := HEAD, index := 2, state := ReqMethod))
    else if p.state.StartRes? then
      if ch == 'H' then GoWith(Fresh(p).(state := ResH), MessageBegin)
      else if ch == CR || ch == LF then GoWith(Fresh(p), MessageBegin)
      else Refuse(p, InvalidConstant)
    else if p.state.ResH? then if ch != 'T' then Refuse(p, Strict) else Go(p.(state := ResHT))
    else if p.state.ResHT? then if ch != 'T' then Refuse(p, Strict) else Go(p.(state := ResHTT))
    else if p.state.ResHTT? then if ch != 'P' then Refuse(p, Strict) else Go(p.(state := ResHTTP))
    else if p.state.ResHTTP? then if ch != '/' then Refuse(p, Strict) else Go(p.(state := ResHttpMajor))
    else if p.state.ResHttpMajor? then
      if !IsNum(ch) then Refuse(p, InvalidVersion) else Go(p.(major := Digit(ch), state := ResHttpDot))
    else if p.state.ResHttpDot? then if ch != '.' then Refuse(p, InvalidVersion) else Go(p.(state := ResHttpMinor))
    else if p.state.ResHttpMinor? then
      if !IsNum(ch) then Refuse(p, InvalidVersion) else Go(p.(minor := Digit(ch), state := ResHttpEnd))
    else if p.state.ResHttpEnd? then
      if ch != ' ' then Refuse(p, InvalidVersion) else Go(p.(state := ResFirstStatusCode))
    else if p.state.ResFirstStatusCode? then
      if IsNum(ch) then Go(p.(status := Digit(ch), state := ResStatusCode))
      else if ch == ' ' then Go(p)
      else Refuse(p, InvalidStatus)
    else if p.state.ResStatusCode? then
      if !IsNum(ch) then
        if ch == ' ' then Go(p.(state := ResStatusStart))
        else if ch == CR || ch == LF then Redo(p.(state := ResStatusStart))
        else Refuse(p, InvalidStatus)
      else
        var s := p.status * 10 + Digit(ch);
        if s > 999 then Refuse(p, InvalidStatus) else Go(p.(status := s))
    else if p.state.ResStatusStart? then
      var q := p.(state := ResStatus, index := 0);
      if ch == CR || ch == LF then Redo(q) else GoWith(q, Data(Status, [ch]))
    else if p.state.ResStatus? then
      if ch == CR then GoWith(p.(state := ResLineAlmostDone), Data(Status, []))
      else if ch == LF then GoWith(p.(state := HeaderFieldStart), Data(Status, []))
      else GoWith(p, Data(Status, [ch]))
    else
      if !p.state.ResLineAlmostDone? || ch != LF then Refuse(p, Strict) else Go(p.(state := HeaderFieldStart))
  }

  function StepMethod(p: Rec, ch: char): (o: Out) {
    var matcher := MethodString(p.meth);
    if ch == '\0' then Refuse(p, InvalidMethod)
    else if ch == ' ' && p.index == |matcher| then
      Go(p.(state := ReqSpacesBeforeUrl, index := p.index + 1))
    else if p.index < |matcher| && ch == matcher[p.index] then
      Go(p.(index := p.index + 1))
    else if 'A' <= ch <= 'Z' || ch == '-' then
      match OtherMethod(p.meth, p.index, ch)
      case None => Refuse(p, InvalidMethod)
      case Some(m) => Go(p.(meth := m, index := p.index + 1))
    else Refuse(p, InvalidMethod)
  }

  function StepUrl(p: Rec, ch: char): (o: Out) {
    if p.state.ReqSpacesBeforeUrl? && ch == ' ' then Go(p)
    else if !p.state.ReqSpacesBeforeUrl? && ch == ' ' then
      if AcceptsUrlEnd(p.state) then GoWith(p.(state := ReqHttpStart), Data(Url, []))
      else Refuse(p, InvalidUrl)
    else if !p.state.ReqSpacesBeforeUrl? && (ch == CR || ch == LF) then
      var q := p.(major := 0, minor := 9);
      if !AcceptsUrlEnd(p.state) then Refuse(p, InvalidUrl)
      else if ch == CR then GoWith(q.(state := ReqLineAlmostDone), Data(Url, []))
      else RedoWith(q.(state := HeadersAlmostDone), Data(Url, []))
    else
      var from := if p.state.ReqSpacesBeforeUrl? && p.meth.CONNECT? then ReqServerStart else p.state;
      var to := ParseUrlChar(from, ch);
      if to.Dead? then Refuse(p, InvalidUrl) else GoWith(p.(state := to), Data(Url, [ch]))
  }

  /** The URL states that a space or a line end may follow. */
  predicate AcceptsUrlEnd(s: State) {
    s.ReqServer? || s.ReqServerWithAt? || s.ReqPath? || s.ReqQueryStringStart?
    || s.ReqQueryString? || s.ReqFragmentStart? || s.ReqFragment?
  }

  function StepReqLine(p: Rec, ch: char): (o: Out) {
    if p.state.StartReq? then
      if ch == CR || ch == LF then Go(p)
      else
        (match FirstMethod(ch)
         case None => Refuse(p, InvalidMethod)
         case Some(m) => GoWith(Fresh(p).(meth := m, index := 1, state := ReqMethod), MessageBegin))
    else if p.state.ReqHttpStart? then
      if ch == 'H' then Go(p.(state := ReqHttpH))
      else if ch == ' ' then Go(p)
      else Refuse(p, InvalidConstant)
    else if p.state.ReqHttpH? then if ch != 'T' then Refuse(p, Strict) else Go(p.(state := ReqHttpHT))
    else if p.state.ReqHttpHT? then if ch != 'T' then Refuse(p, Strict) else Go(p.(state := ReqHttpHTT))
    else if p.state.ReqHttpHTT? then if ch != 'P' then Refuse(p, Strict) else Go(p.(state := ReqHttpHTTP))
    else if p.state.ReqHttpHTTP? then if ch != '/' then Refuse(p, Strict) else Go(p.(state := ReqHttpMajor))
    else if p.state.ReqHttpMajor? then
      if !IsNum(ch) then Refuse(p, InvalidVersion) else Go(p.(major := Digit(ch), state := ReqHttpDot))
    else if p.state.ReqHttpDot? then if ch != '.' then Refuse(p, InvalidVersion) else Go(p.(state := ReqHttpMinor))
    else if p.state.ReqHttpMinor? then
      if !IsNum(ch) then Refuse(p, InvalidVersion) else Go(p.(minor := Digit(ch), state := ReqHttpEnd))
    else if p.state.ReqHttpEnd? then
      if ch == CR then Go(p.(state := ReqLineAlmostDone))
      else if ch == LF then Go(p.(state := HeaderFieldStart))
      else Refuse(p, InvalidVersion)
    else if p.state.ReqLineAlmostDone? then
      if ch != LF then Refuse(p, LfExpected)
      else if p.major == 0 then Redo(p.(state := HeadersAlmostDone))
      else Go(p.(state := HeaderFieldStart))
    else Refuse(p, InvalidConstant)
  }

  // ----- header fields -----

  function FirstNameState(c: char): HeaderState {
    match c
    case 'c' => C
    case 'p' => MatchingProxyConnection
    case 't' => MatchingTransferEncoding
    case 'u' => MatchingUpgrade
    case _ => General
  }

  /** One byte of a matcher: `word` is the string matched, `miss` and `hit` the
      header states after a mismatch and after its last character. */
  function MatchWord(h: HeaderState, index: nat, c: char, word: string, miss: HeaderState, hit: HeaderState)
    : (HeaderState, nat)
    requires |word| > 0
  {
    var i := index + 1;
    if i > |word| || i == |word| || c != word[i] then (miss, i)
    else if i == |word| - 1 then (hit, i)
    else (h, i)
  }

  /** One byte of a header name: `c` is the lower-cased token. */
  function NameStep(h: HeaderState, index: nat, c: char): (r: (HeaderState, nat)) {
    match h
    case General => (General, index)
    case C => (if c == 'o' then CO else General, index + 1)
    case CO => (if c == 'n' then CON else General, index + 1)
    case CON =>
      (if c == 'n' then MatchingConnection else if c == 't' then MatchingContentLength else General, index + 1)
    case MatchingConnection => MatchWord(h, index, c, CONNECTION, General, Connection)
    case MatchingProxyConnection => MatchWord(h, index, c, PROXY_CONNECTION, General, Connection)
    case MatchingContentLength => MatchWord(h, index, c, CONTENT_LENGTH, General, ContentLength)
    case MatchingTransferEncoding => MatchWord(h, index, c, TRANSFER_ENCODING, General, TransferEncoding)
    case MatchingUpgrade => MatchWord(h, index, c, UPGRADE, General, Upgrade)
    case _ => (General, index)
  }

  /** A header value begins with `ch`. */
  function StepValueStart(p: Rec, ch: char): (o: Out) {
    var q := p.(state := HeaderValue, index := 0);
    var c := Lower(ch);
    var e := Data(Value, [ch]);
    match p.hstate
    case Upgrade => GoWith(q.(flags := q.flags.(upgrade := true), hstate := General), e)
    case TransferEncoding => GoWith(q.(hstate := if c == 'c' then MatchingChunked else General), e)
    case ContentLength =>
      if !IsNum(ch) then Refuse(p, InvalidContentLength)
      else if p.flags.hasLength then Refuse(p, UnexpectedContentLength)
      else GoWith(q.(flags := q.flags.(hasLength := true), contentLength := Digit(ch)), e)
    case Connection =>
      GoWith(q.(hstate := if c == 'k' then MatchingKeepAlive
                          else if c == 'c' then MatchingClose
                          else if c == 'u' then MatchingTokenUpgrade
                          else MatchingToken), e)
    case MatchingTokenStart => GoWith(q, e)
    case _ => GoWith(q.(hstate := General), e)
  }

  /** The flag a finished `Connection` or `Transfer-Encoding` token sets. */
  function TokenFlag(h: HeaderState, f: Flags): Flags {
    match h
    case KeepAlive => f.(keepAlive := true)
    case Close => f.(close := true)
    case TokenUpgrade => f.(connectionUpgrade := true)
    case Chunked => f.(chunked := true)
    case _ => f
  }

  /** One byte of a header value that is neither CR nor LF. */
  function ValueStep(p: Rec, ch: char): (o: Out) {
    var c := Lower(ch);
    var e := Data(Value, [ch]);
    match p.hstate
    case ContentLength =>
      if ch == ' ' then GoWith(p, e)
      else if !IsNum(ch) then Refuse(p, InvalidContentLength)
      else
        var t := (p.contentLength * 10 + Digit(ch)) % (ULLONG_MAX + 1);
        if (ULLONG_MAX - 10) / 10 < p.contentLength then Refuse(p, InvalidContentLength)
        else GoWith(p.(contentLength := t), e)
    case MatchingChunked =>
      var r := MatchWord(p.hstate, p.index, c, CHUNKED, General, Chunked);
      GoWith(p.(hstate := r.0, index := r.1), e)
    case MatchingTokenStart =>
      GoWith(p.(hstate := if c == 'k' then MatchingKeepAlive
                          else if c == 'c' then MatchingClose
                          else if c == 'u' then MatchingTokenUpgrade
                          else if Token(c).Some? then MatchingToken
                          else if c == ' ' || c == '\t' then MatchingTokenStart
                          else General), e)
    case MatchingKeepAlive =>
      var r := MatchWord(p.hstate, p.index, c, KEEP_ALIVE, MatchingToken, KeepAlive);
      GoWith(p.(hstate := r.0, index := r.1), e)
    case MatchingClose =>
      var r := MatchWord(p.hstate, p.index, c, CLOSE, MatchingToken, Close);
      GoWith(p.(hstate := r.0, index := r.1), e)
    case MatchingTokenUpgrade =>
      var r := MatchWord(p.hstate, p.index, c, UPGRADE, MatchingToken, TokenUpgrade);
      GoWith(p.(hstate := r.0, index := r.1), e)
    case MatchingToken =>
      if ch == ',' then GoWith(p.(hstate := MatchingTokenStart, index := 0), e) else GoWith(p, e)
    case Chunked => if ch == ' ' then GoWith(p, e) else GoWith(p.(hstate := General), e)
    case KeepAlive => AfterToken(p, ch)
    case Close => AfterToken(p, ch)
    case TokenUpgrade => AfterToken(p, ch)
    case _ =>
      GoWith(p.(hstate := General), e)
  }

  function AfterToken(p: Rec, ch: char): Out {
    var e := Data(Value, [ch]);
    if ch == ',' then
      GoWith(p.(flags := TokenFlag(p.hstate, p.flags), hstate := MatchingTokenStart, index := 0), e)
    else if ch == ' ' then GoWith(p, e)
    else GoWith(p.(hstate := MatchingToken), e)
  }

  function StepHeader(lenient: bool, p: Rec, ch: char): (o: Out) {
    if p.state.HeaderFieldStart? then
      if ch == CR then Go(p.(state := HeadersAlmostDone))
      else if ch == LF then Redo(p.(state := HeadersAlmostDone))
      else
        (match Token(ch)
         case None => Refuse(p, InvalidHeaderToken)
         case Some(c) =>
           GoWith(p.(index := 0, state := HeaderField, hstate := FirstNameState(c)), Data(Field, [ch])))
    else if p.state.HeaderField? then
      (match Token(ch)
       case Some(c) =>
         var r := NameStep(p.hstate, p.index, c);
         GoWith(p.(hstate := r.0, index := r.1), Data(Field, [ch]))
       case None =>
         if ch == ':' then GoWith(p.(state := HeaderValueDiscardWs), Data(Field, []))
         else Refuse(p, InvalidHeaderToken))
    else if p.state.HeaderValueDiscardWs? then
      if ch == ' ' || ch == '\t' then Go(p)
      else if ch == CR then Go(p.(state := HeaderValueDiscardWsAlmostDone))
      else if ch == LF then Go(p.(state := HeaderValueDiscardLws))
      else StepValueStart(p, ch)
    else if p.state.HeaderValueStart? then StepValueStart(p, ch)
    else if p.state.HeaderValue? then
      if ch == CR then GoWith(p.(state := HeaderAlmostDone), Data(Value, []))
      else if ch == LF then RedoWith(p.(state := HeaderAlmostDone), Data(Value, []))
      else if !lenient && !IsHeaderChar(ch) then Refuse(p, InvalidHeaderToken)
      else ValueStep(p, ch)
    else if p.state.HeaderAlmostDone? then
      if ch != LF then Refuse(p, LfExpected) else Go(p.(state := HeaderValueLws))
    else if p.state.HeaderValueLws? then
      if ch == ' ' || ch == '\t' then Redo(p.(state := HeaderValueStart))
      else Redo(p.(flags := TokenFlag(p.hstate, p.flags), state := HeaderFieldStart))
    else if p.state.HeaderValueDiscardWsAlmostDone? then
      if ch != LF then Refuse(p, Strict) else Go(p.(state := HeaderValueDiscardLws))
    else if p.state.HeaderValueDiscardLws? then
      if ch == ' ' || ch == '\t' then Go(p.(state := HeaderValueDiscardWs))
      else
        RedoWith(p.(flags := TokenFlag(p.hstate, p.flags), state := HeaderFieldStart), Data(Value, []))
    else Refuse(p, InvalidConstant)
  }

  // ----- end of headers -----

  /** The record that `on_headers_complete` sees. */
  function BeforeHeadersComplete(p: Rec): Rec {
    p.(state := HeadersDone,
       upgrade := if p.flags.upgrade && p.flags.connectionUpgrade
                  then p.ptype.Request? || p.status == 101
                  else p.meth.CONNECT?)
  }

  function StepHeadersAlmostDone(env: Env, p: Rec, ch: char): (o: Out) {
    if ch != LF then Refuse(p, Strict)
    else if p.flags.trailing then RedoWith(p.(state := MessageDone), ChunkComplete)
    else if p.flags.chunked && p.flags.hasLength then Refuse(p, UnexpectedContentLength)
    else
      var q := BeforeHeadersComplete(p);
      var r := env.onHeadersComplete(q);
      if r == 0 then RedoWith(q, HeadersComplete)
      else if r == 2 then
        RedoWith(q.(upgrade := true, flags := q.flags.(skipBody := true)), HeadersComplete)
      else if r == 1 then RedoWith(q.(flags := q.flags.(skipBody := true)), HeadersComplete)
      else Out(q, [HeadersComplete], Fail(CallbackFailed), false)
  }

  function StepHeadersDone(p: Rec, ch: char): (o: Out) {
    var hasBody := p.flags.chunked || (p.contentLength > 0 && p.contentLength != ULLONG_MAX);
    if ch != LF then Refuse(p, Strict)
    else if p.upgrade && (p.meth.CONNECT? || p.flags.skipBody || !hasBody) then
      Out(p.(state := NewMessage(p)), [MessageComplete], Exit, true)
    else if p.flags.skipBody then
      Out(p.(state := NewMessage(p)), [MessageComplete], Consume, true)
    else if p.flags.chunked then Out(p.(state := ChunkSizeStart), [], Consume, true)
    else if p.contentLength == 0 then
      Out(p.(state := NewMessage(p)), [MessageComplete], Consume, true)
    else if p.contentLength != ULLONG_MAX then Out(p.(state := BodyIdentity), [], Consume, true)
    else if !NeedsEof(p) then
      Out(p.(state := NewMessage(p)), [MessageComplete], Consume, true)
    else Out(p.(state := BodyIdentityEof), [], Consume, true)
  }

  // ----- body -----

  function StepBody(p: Rec, ch: char): (o: Out) {
    if p.state.BodyIdentity? then
      var q := p.(contentLength := p.contentLength - 1);
      if q.contentLength == 0 then
        RedoWith(q.(state := MessageDone), Data(Body, [ch]))
      else GoWith(q, Data(Body, [ch]))
    else if p.state.BodyIdentityEof? then GoWith(p, Data(Body, [ch]))
    else if p.state.MessageDone? then
      var q := p.(state := NewMessage(p));
      Out(q, [MessageComplete], if p.upgrade then Exit else Consume, false)
    else if p.state.ChunkSizeStart? then
      (match Unhex(ch)
       case None => Refuse(p, InvalidChunkSize)
       case Some(d) => Go(p.(contentLength := d, state := ChunkSize)))
    else if p.state.ChunkSize? then
      if ch == CR then Go(p.(state := ChunkSizeAlmostDone))
      else
        (match Unhex(ch)
         case None =>
           if ch == ';' || ch == ' ' then Go(p.(state := ChunkParameters)) else Refuse(p, InvalidChunkSize)
         case Some(d) =>
           var t := (p.contentLength * 16 + d) % (ULLONG_MAX + 1);
           if (ULLONG_MAX - 16) / 16 < p.contentLength then Refuse(p, InvalidContentLength)
           else Go(p.(contentLength := t)))
    else if p.state.ChunkParameters? then
      if ch == CR then Go(p.(state := ChunkSizeAlmostDone)) else Go(p)
    else if p.state.ChunkSizeAlmostDone? then
      if ch != LF then Refuse(p, Strict)
      else if p.contentLength == 0 then
        Out(p.(flags := p.flags.(trailing := true), state := HeaderFieldStart),
            [ChunkHeader(p.contentLength)], Consume, true)
      else Out(p.(state := ChunkData), [ChunkHeader(p.contentLength)], Consume, true)
    else if p.state.ChunkData? then
      var q := p.(contentLength := p.contentLength - 1);
      GoWith(if q.contentLength == 0 then q.(state := ChunkDataAlmostDone) else q, Data(Body, [ch]))
    else if p.state.ChunkDataAlmostDone? then
      if ch != CR then Refuse(p, Strict) else Go(p.(state := ChunkDataDone))
    else
      if !p.state.ChunkDataDone? || ch != LF then Refuse(p, Strict)
      else Out(p.(state := ChunkSizeStart), [ChunkComplete], Consume, true)
  }

  // ----- the switch -----

  /** Falls at every `REEXECUTE()`, so a byte is executed finitely often. */
  function Rank(s: State): nat {
    if s.HeadersDone? then 0
    else if s.MessageDone? then 0
    else if s.HeaderAlmostDone? then 0
    else if s.HeaderValueStart? then 0
    else if s.StartReq? then 0
    else if s.ResStatus? then 0
    else if s.HeadersAlmostDone? then 1
    else if s.ResStatusStart? then 1
    else if s.HeaderFieldStart? then 2
    else 3
  }

  datatype Group = ResLineGroup | ReqLineGroup | MethodGroup | UrlGroup | HeaderGroup
                 | AlmostDoneGroup | DoneGroup | BodyGroup

  function GroupOf(s: State): Group {
    if s.Dead? then ResLineGroup
    else if s.StartReqOrRes? then ResLineGroup
    else if s.ResOrRespH? then ResLineGroup
    else if s.StartRes? then ResLineGroup
    else if s.ResH? then ResLineGroup
    else if s.ResHT? then ResLineGroup
    else if s.ResHTT? then ResLineGroup
    else if s.ResHTTP? then ResLineGroup
    else if s.ResHttpMajor? then ResLineGroup
    else if s.ResHttpDot? then ResLineGroup
    else if s.ResHttpMinor? then ResLineGroup
    else if s.ResHttpEnd? then ResLineGroup
    else if s.ResFirstStatusCode? then ResLineGroup
    else if s.ResStatusCode? then ResLineGroup
    else if s.ResStatusStart? then ResLineGroup
    else if s.ResStatus? then ResLineGroup
    else if s.ResLineAlmostDone? then ResLineGroup
    else if s.ReqMethod? then MethodGroup
    else if s.StartReq? then ReqLineGroup
    else if s.ReqHttpStart? then ReqLineGroup
    else if s.ReqHttpH? then ReqLineGroup
    else if s.ReqHttpHT? then ReqLineGroup
    else if s.ReqHttpHTT? then ReqLineGroup
    else if s.ReqHttpHTTP? then ReqLineGroup
    else if s.ReqHttpMajor? then ReqLineGroup
    else if s.ReqHttpDot? then ReqLineGroup
    else if s.ReqHttpMinor? then ReqLineGroup
    else if s.ReqHttpEnd? then ReqLineGroup
    else if s.ReqLineAlmostDone? then ReqLineGroup
    else if s.HeaderFieldStart? then HeaderGroup
    else if s.HeaderField? then HeaderGroup
    else if s.HeaderValueDiscardWs? then HeaderGroup
    else if s.HeaderValueDiscardWsAlmostDone? then HeaderGroup
    else if s.HeaderValueDiscardLws? then HeaderGroup
    else if s.HeaderValueStart? then HeaderGroup
    else if s.HeaderValue? then HeaderGroup
    else if s.HeaderValueLws? then HeaderGroup
    else if s.HeaderAlmostDone? then HeaderGroup
    else if s.HeadersAlmostDone? then AlmostDoneGroup
    else if s.HeadersDone? then DoneGroup
    else if s.ChunkSizeStart? then BodyGroup
    else if s.ChunkSize? then BodyGroup
    else if s.ChunkParameters? then BodyGroup
    else if s.ChunkSizeAlmostDone? then BodyGroup
    else if s.ChunkData? then BodyGroup
    else if s.ChunkDataAlmostDone? then BodyGroup
    else if s.ChunkDataDone? then BodyGroup
    else if s.BodyIdentity? then BodyGroup
    else if s.BodyIdentityEof? then BodyGroup
    else if s.MessageDone? then BodyGroup
    else UrlGroup
  }

  function Step(env: Env, p: Rec, ch: char): (o: Out) {
    match GroupOf(p.state)
    case ResLineGroup => StepResLine(p, ch)
    case ReqLineGroup => StepReqLine(p, ch)
    case MethodGroup => StepMethod(p, ch)
    case UrlGroup => StepUrl(p, ch)
    case HeaderGroup => StepHeader(env.lenient, p, ch)
    case AlmostDoneGroup => StepHeadersAlmostDone(env, p, ch)
    case DoneGroup => StepHeadersDone(p, ch)
    case BodyGroup => StepBody(p, ch)
  }
}
