/** Chunked bodies (section 4.1 of RFC 7230): decoding undoes encoding. */
module HttpChunked {
  import opened HttpTypes
  import opened HttpStep
  import opened HttpTrace
  import opened HttpFeed
  import opened HttpMarks
  import opened HttpExecute
  import opened HttpReads
  import opened HttpFields
  import opened HttpFraming

  /** `size` is any spelling of the length of `data` in hexadecimal digits; `ext`
      is empty or begins with `;` or a space. */
  datatype ChunkText = ChunkText(size: string, ext: string, data: string)

  predicate ExtensionOk(ext: string) {
    && (ext != [] ==> ext[0] == ';' || ext[0] == ' ')
    && forall k :: 0 <= k < |ext| ==> ext[k] != CR
  }

  predicate ChunkOk(c: ChunkText) {
    && c.size != [] && HexText(c.size) && HexValue(c.size) == |c.data| <= MAX_CHUNK
    && ExtensionOk(c.ext)
  }

  function PrintSize(c: ChunkText): string { c.size + c.ext + "\r\n" }

  function PrintChunk(c: ChunkText): string { PrintSize(c) + (c.data + "\r\n") }

  function ChunkEvents(data: string): seq<Event> { [ChunkHeader(|data|), Data(Body, data), ChunkComplete] }

  /** Records that wait for a chunk size. */
  predicate AtChunk(p: Rec) { Inv(p) && p.state.ChunkSizeStart? }

  lemma SizeEndBytes(env: Env, p: Rec, ch: char)
    ensures p.state.ChunkSize? && (ch == ';' || ch == ' ') ==> Byte(env, p, ch) == Go(p.(state := ChunkParameters))
    ensures p.state.ChunkParameters? && ch != CR ==> Byte(env, p, ch) == Go(p)
    ensures (p.state.ChunkSize? || p.state.ChunkParameters?) && ch == CR ==>
              Byte(env, p, ch) == Go(p.(state := ChunkSizeAlmostDone))
  {
    hide StepUrl, StepResLine, StepReqLine, StepMethod, StepHeadersDone, StepHeader, NewMessage;
  }

  lemma SizeLineByte(env: Env, p: Rec)
    requires p.state.ChunkSizeAlmostDone?
    ensures var o := Byte(env, p, LF);
      o.ctl.Consume? && o.ev == [ChunkHeader(p.contentLength)]
      && o.p == (if p.contentLength == 0 then p.(flags := p.flags.(trailing := true), state := HeaderFieldStart)
                 else p.(state := ChunkData))
  {
    hide StepUrl, StepResLine, StepReqLine, StepMethod, StepHeadersDone, StepHeader, NewMessage, Unhex;
  }

  /** The extension is skipped. */
  lemma {:induction false} ExtensionReads(env: Env, p: Rec, s: string, ext: string)
    requires p.state.ChunkSizeStart? && s != [] && HexText(s) && HexValue(s) <= MAX_CHUNK && ExtensionOk(ext)
    ensures Reads(env, p, s + ext, SizeRec(p, s).(state := if ext == [] then ChunkSize else ChunkParameters), [])
    decreases |ext|
  {
    hide Byte, Reads, Unhex, HexValue;
    var none: seq<Event> := [];
    if ext == [] {
      assert s + ext == s;
      SizeSeparators(s);
      SizeExact(env, p, s);
    } else {
      var front, ch := ext[..|ext| - 1], ext[|ext| - 1];
      ExtensionReads(env, p, s, front);
      var q := SizeRec(p, s).(state := if front == [] then ChunkSize else ChunkParameters);
      SizeEndBytes(env, q, ch);
      Next(env, p, s + front, q, [], ch);
      assert s + front + [ch] == s + ext;
      assert none + (none + none) == none;
    }
  }

  lemma SizeSeparators(s: string)
    requires HexText(s)
    ensures forall k :: 0 <= k < |s| ==> s[k] != CR && s[k] != ';' && s[k] != ' '
  {}

  predicate NoCr(s: string) { forall k :: 0 <= k < |s| ==> s[k] != CR }

  predicate SizeAndExtension(w: string, size: string, ext: string) {
    w == size + ext && size != [] && HexText(size) && HexValue(size) <= MAX_CHUNK && ExtensionOk(ext)
  }

  /** Where the extension begins. */
  function Separator(w: string): (k: nat)
    ensures k <= |w| && (forall i :: 0 <= i < k ==> w[i] != ';' && w[i] != ' ')
    ensures k < |w| ==> w[k] == ';' || w[k] == ' '
  {
    if w == [] || w[0] == ';' || w[0] == ' ' then 0 else 1 + Separator(w[1..])
  }

  lemma AfterSizeCr(env: Env, p: Rec, ch: char)
    requires p.state.ChunkSizeAlmostDone?
    ensures Byte(env, p, ch).ctl.Fail? <==> ch != LF
    ensures Byte(env, p, LF).ctl.Consume?
  {
    hide StepUrl, StepResLine, StepReqLine, StepMethod, StepHeadersDone, StepHeader, NewMessage, Unhex;
  }

  /** The line with the size is accepted if and only if it is a size, an extension
      that begins with a semicolon or a space, or none, and a CR and a LF. */
  lemma SizeLineExact(env: Env, p: Rec, w: string, ch: char)
    requires p.state.ChunkSizeStart? && NoCr(w)
    ensures !Feed(env, p, 0, w + [CR] + [ch]).verdict.Failed?
            <==> ch == LF && exists size: string, ext: string :: SizeAndExtension(w, size, ext)
  {
    hide Byte, Reads, HexText, HexValue, FeedOn, Extend, Unhex, ExtensionOk;
    FeedSnoc(env, Start(p, 0), w + [CR], ch);
    if size: string, ext: string :| SizeAndExtension(w, size, ext) {
      SizeThenCr(env, p, size, ext, ch);
    } else {
      var k := Separator(w);
      var size, ext := w[..k], w[k..];
      assert w == size + ext;
      assert ExtensionOk(ext) by { ExtensionThere(w, k); }
      assert !SizeAndExtension(w, size, ext);
      FeedConcat(env, Start(p, 0), w, [CR]);
      FeedConcat(env, Start(p, 0), size, ext);
      if k > 0 {
        BadSize(env, p, size);
        FeedStopped(env, Feed(env, p, 0, size), ext);
        FeedStopped(env, Feed(env, p, 0, w), [CR]);
        FailsOn(env, Feed(env, p, 0, w + [CR]), ch);
      } else {
        NoSize(env, p, w);
        FeedConcat(env, Start(p, 0), w + [CR], [ch]);
        FailedAlready(env, p, w + [CR], ch);
      }
    }
  }

  lemma ExtensionThere(w: string, k: nat)
    requires k == Separator(w) && NoCr(w)
    ensures ExtensionOk(w[k..])
  {}

  lemma FailsOn(env: Env, r: Run, ch: char)
    requires r.verdict.Failed?
    ensures Extend(env, r, ch) == r
  {}

  lemma FailedAlready(env: Env, p: Rec, s: string, ch: char)
    requires s != [] && Feed(env, p, 0, [s[0]]).verdict.Failed?
    ensures Feed(env, p, 0, s + [ch]).verdict.Failed?
  {
    hide FeedOn, Byte;
    var t := s[1..] + [ch];
    assert s + [ch] == [s[0]] + t;
    FeedConcat(env, Start(p, 0), [s[0]], t);
    FeedStopped(env, Feed(env, p, 0, [s[0]]), t);
  }

  lemma NoSize(env: Env, p: Rec, w: string)
    requires p.state.ChunkSizeStart? && Separator(w) == 0
    ensures Feed(env, p, 0, [(w + [CR])[0]]).verdict.Failed?
  {
    hide Byte, FeedOn;
    var ch := (w + [CR])[0];
    FeedOne(env, Start(p, 0), ch);
    SizeByteStart(env, p, ch);
  }

  lemma BadSize(env: Env, p: Rec, size: string)
    requires p.state.ChunkSizeStart?
    requires forall i :: 0 <= i < |size| ==> size[i] != ';' && size[i] != ' ' && size[i] != CR
    requires !(HexText(size) && HexValue(size) <= MAX_CHUNK)
    ensures Feed(env, p, 0, size).verdict.Failed?
  {
    hide HexValue, FeedOn;
    assert size != [] by { EmptySize(); }
    SizeExact(env, p, size);
  }

  lemma EmptySize()
    ensures HexText([]) && HexValue([]) == 0
  {}

  lemma SizeThenCr(env: Env, p: Rec, size: string, ext: string, ch: char)
    requires p.state.ChunkSizeStart? && SizeAndExtension(size + ext, size, ext)
    ensures Feed(env, p, 0, size + ext + [CR]).verdict.Running?
    ensures Extend(env, Feed(env, p, 0, size + ext + [CR]), ch).verdict.Failed? <==> ch != LF
  {
    hide Byte, FeedOn, HexText, HexValue, ExtensionOk, Join;
    ExtensionReads(env, p, size, ext);
    var q := SizeRec(p, size).(state := if ext == [] then ChunkSize else ChunkParameters);
    FeedSnoc(env, Start(p, 0), size + ext, CR);
    SizeEndBytes(env, q, CR);
    AfterSizeCr(env, q.(state := ChunkSizeAlmostDone), ch);
  }

  /** The line with the size. */
  lemma SizeReads(env: Env, p: Rec, c: ChunkText)
    requires AtChunk(p) && ChunkOk(c)
    ensures var n := |c.data|; var q := p.(contentLength := n);
      Reads(env, p, PrintSize(c),
            if n == 0 then q.(flags := q.flags.(trailing := true), state := HeaderFieldStart)
            else q.(state := ChunkData),
            [ChunkHeader(n)])
  {
    hide Byte, Reads, HexText, HexValue, ExtensionOk, Inv;
    var n := |c.data|;
    var none: seq<Event> := [];
    ExtensionReads(env, p, c.size, c.ext);
    var q := p.(contentLength := n, state := if c.ext == [] then ChunkSize else ChunkParameters);
    SizeEndBytes(env, q, CR);
    Next(env, p, c.size + c.ext, q, [], CR);
    assert none + (none + none) == none;
    var r := q.(state := ChunkSizeAlmostDone);
    SizeLineByte(env, r);
    Next(env, p, c.size + c.ext + [CR], r, [], LF);
    assert c.size + c.ext + [CR] + [LF] == PrintSize(c);
    assert none + ([ChunkHeader(n)] + none) == [ChunkHeader(n)];
  }

  lemma DataEndBytes(env: Env, p: Rec)
    requires Inv(p)
    ensures p.state.ChunkDataAlmostDone? ==> Byte(env, p, CR) == Go(p.(state := ChunkDataDone))
    ensures p.state.ChunkDataDone? ==>
              var o := Byte(env, p, LF);
              o.ctl.Consume? && o.ev == [ChunkComplete] && o.p == p.(state := ChunkSizeStart)
  {
    hide StepUrl, StepResLine, StepReqLine, StepMethod, StepHeadersDone, StepHeader, NewMessage, Unhex, MethodString;
  }

  /** The data of a chunk. */
  lemma DataRun(env: Env, p: Rec, data: string)
    requires Inv(p) && p.state.ChunkData? && p.contentLength == |data| > 0
    ensures Reads(env, p, data, p.(contentLength := 0, state := ChunkDataAlmostDone), Letters(Body, data))
    ensures Inv(p.(contentLength := 0, state := ChunkDataAlmostDone))
  {
    hide Byte, Inv, Letters;
    ChunkRun(env, Start(p, 0), data);
    assert [] + Letters(Body, data) == Letters(Body, data);
    assert Letters(Body, data) + [] == Letters(Body, data);
  }

  lemma DataEndRefuses(env: Env, p: Rec, ch: char)
    ensures p.state.ChunkDataAlmostDone? && ch != CR ==> Byte(env, p, ch).ctl.Fail?
    ensures p.state.ChunkDataDone? && ch != LF ==> Byte(env, p, ch).ctl.Fail?
  {
    hide StepUrl, StepResLine, StepReqLine, StepMethod, StepHeadersDone, StepHeader, NewMessage, Unhex, MethodString;
  }

  /** Behind the data of a chunk, a CR and a LF are accepted, and nothing else. */
  lemma DataEndExact(env: Env, p: Rec, data: string, a: char, b: char)
    requires Inv(p) && p.state.ChunkData? && p.contentLength == |data| > 0
    ensures !Feed(env, p, 0, data + [a] + [b]).verdict.Failed? <==> a == CR && b == LF
  {
    hide Byte, Inv, Letters, FeedOn, Join;
    DataRun(env, p, data);
    var q := p.(contentLength := 0, state := ChunkDataAlmostDone);
    var r := q.(state := ChunkDataDone);
    FeedSnoc(env, Start(p, 0), data, a);
    FeedSnoc(env, Start(p, 0), data + [a], b);
    DataEndBytes(env, q);
    DataEndRefuses(env, q, a);
    DoneInv(q);
    DataEndBytes(env, r);
    DataEndRefuses(env, r, b);
  }

  lemma DoneInv(p: Rec)
    requires Inv(p) && p.state.ChunkDataAlmostDone?
    ensures Inv(p.(state := ChunkDataDone))
  {
    hide MethodString;
  }

  /** The data of a chunk and the line end behind it. */
  lemma DataReads(env: Env, p: Rec, data: string)
    requires Inv(p) && p.state.ChunkData? && p.contentLength == |data| > 0
    ensures Reads(env, p, data + "\r\n", p.(contentLength := 0, state := ChunkSizeStart),
                  [Data(Body, data), ChunkComplete])
  {
    hide Byte, Inv, Letters, Reads, Feed, Join;
    var q := p.(contentLength := 0, state := ChunkDataAlmostDone);
    DataRun(env, p, data);
    var none: seq<Event> := [];
    var l := Letters(Body, data);
    DataEndBytes(env, q);
    Next(env, p, data, q, l, CR);
    assert l + (none + none) == l;
    var r := q.(state := ChunkDataDone);
    assert Inv(r) by { ChunkEndKeeps(q); }
    DataEndBytes(env, r);
    Next(env, p, data + [CR], r, l, LF);
    assert data + [CR] + [LF] == data + "\r\n";
    assert l + ([ChunkComplete] + none) == l + [ChunkComplete];
    JoinClosed(Body, data);
    SameAfter(l, [Data(Body, data)], [ChunkComplete]);
    assert [Data(Body, data)] + [ChunkComplete] == [Data(Body, data), ChunkComplete];
    Retell(env, p, data + "\r\n", r.(state := ChunkSizeStart), l + [ChunkComplete], [Data(Body, data), ChunkComplete]);
  }

  lemma ChunkEndKeeps(p: Rec)
    requires Inv(p) && p.state.ChunkDataAlmostDone?
    ensures Inv(p.(state := ChunkDataDone)) && Inv(p.(state := ChunkSizeStart))
  {}

  lemma AtChunkAfter(p: Rec, n: nat)
    requires AtChunk(p) && 0 < n <= MAX_CHUNK
    ensures Inv(p.(contentLength := n, state := ChunkData)) && AtChunk(p.(contentLength := 0))
  {}

  /** One chunk. */
  lemma ChunkReads(env: Env, p: Rec, c: ChunkText)
    requires AtChunk(p) && ChunkOk(c) && c.data != []
    ensures Reads(env, p, PrintChunk(c), p.(contentLength := 0), ChunkEvents(c.data))
    ensures AtChunk(p.(contentLength := 0))
  {
    hide Reads, Inv, HexText, ExtensionOk;
    var q := p.(contentLength := |c.data|, state := ChunkData);
    AtChunkAfter(p, |c.data|);
    SizeReads(env, p, c);
    DataReads(env, q, c.data);
    ThenAny(env, p, PrintSize(c), q, [ChunkHeader(|c.data|)], c.data + "\r\n",
            p.(contentLength := 0), [Data(Body, c.data), ChunkComplete]);
    assert [ChunkHeader(|c.data|)] + [Data(Body, c.data), ChunkComplete] == ChunkEvents(c.data);
  }

  function PrintChunks(cs: seq<ChunkText>): string {
    if cs == [] then [] else PrintChunks(cs[..|cs| - 1]) + PrintChunk(cs[|cs| - 1])
  }

  function ChunksEvents(cs: seq<ChunkText>): seq<Event> {
    if cs == [] then [] else ChunksEvents(cs[..|cs| - 1]) + ChunkEvents(cs[|cs| - 1].data)
  }

  lemma {:induction false} ChunksReads(env: Env, p: Rec, cs: seq<ChunkText>) returns (q: Rec)
    requires AtChunk(p) && forall c :: c in cs ==> ChunkOk(c) && c.data != []
    ensures Reads(env, p, PrintChunks(cs), q, ChunksEvents(cs))
    ensures AtChunk(q) && q == p.(contentLength := q.contentLength)
  {
    hide Reads, Inv, ChunkOk;
    if cs == [] {
      ReadsNothing(env, p);
      q := p;
    } else {
      var k := |cs| - 1;
      var r := ChunksReads(env, p, cs[..k]);
      ChunkReads(env, r, cs[k]);
      q := r.(contentLength := 0);
      ThenAny(env, p, PrintChunks(cs[..k]), r, ChunksEvents(cs[..k]), PrintChunk(cs[k]), q, ChunkEvents(cs[k].data));
    }
  }

  // ----- the end of the body -----

  lemma LastCr(env: Env, p: Rec)
    requires p.state.HeaderFieldStart?
    ensures Byte(env, p, CR) == Go(p.(state := HeadersAlmostDone))
  {
    hide StepUrl, StepResLine, StepReqLine, StepMethod, StepHeadersAlmostDone, StepHeadersDone, StepBody;
    hide StepValueStart, ValueStep;
  }

  lemma LastLf(env: Env, p: Rec)
    requires p.state.HeadersAlmostDone? && p.flags.trailing
    ensures var q := p.(state := MessageDone);
      var o := Byte(env, p, LF);
      && o.ctl == (if p.upgrade then Exit else Consume)
      && o.p == q.(state := NewMessage(q)) && o.ev == [ChunkComplete, MessageComplete]
  {
    hide StepUrl, StepResLine, StepReqLine, StepMethod, StepHeader, StepHeadersDone, NewMessage;
    var q := p.(state := MessageDone);
    assert Step(env, p, LF) == RedoWith(q, ChunkComplete);
    assert Byte(env, q, LF) == Step(env, q, LF);
    assert [ChunkComplete] + [MessageComplete] == [ChunkComplete, MessageComplete];
  }

  /** A chunked body as it is sent: chunks, the last chunk, the trailer fields. */
  datatype ChunkedBody = ChunkedBody(chunks: seq<ChunkText>, last: ChunkText, trailer: seq<HeaderLine>)

  predicate BodyOk(env: Env, b: ChunkedBody) {
    && (forall c :: c in b.chunks ==> ChunkOk(c) && c.data != [])
    && ChunkOk(b.last) && b.last.data == []
    && forall f :: f in b.trailer ==> Free(env, f)
  }

  /** Up to the LF of the empty line. */
  function PrintBodyFront(b: ChunkedBody): string {
    PrintChunks(b.chunks) + (PrintSize(b.last) + (PrintLines(b.trailer) + "\r"))
  }

  function PrintBody(b: ChunkedBody): string { PrintBodyFront(b) + "\n" }

  function BodyEvents(b: ChunkedBody): seq<Event> {
    ChunksEvents(b.chunks) + ([ChunkHeader(0)] + (LinesEvents(b.trailer) + [ChunkComplete, MessageComplete]))
  }

  lemma LikeNewMessage(p: Rec, q: Rec)
    requires Like(p, q)
    ensures NewMessage(p) == NewMessage(q) && p.flags == q.flags && p.upgrade == q.upgrade
  {}

  lemma SameNewMessage(p: Rec, s: State)
    ensures NewMessage(p.(state := s)) == NewMessage(p)
  {}

  lemma TrailerReads(env: Env, p: Rec, fs: seq<HeaderLine>) returns (q: Rec)
    requires p.state.HeaderFieldStart? && forall f :: f in fs ==> Free(env, f)
    ensures Reads(env, p, PrintLines(fs), q, LinesEvents(fs))
    ensures Alike(p, q) && q.state.HeaderFieldStart?
    ensures (forall f :: f in fs ==> Plain(env, f)) ==>
              Like(p, q) && NewMessage(p) == NewMessage(q) && p.flags == q.flags && p.upgrade == q.upgrade
  {
    hide Reads, Plain, Free, NewMessage;
    q := FreeLines(env, p, fs);
    if forall f :: f in fs ==> Plain(env, f) {
      var r := PlainLines(env, p, fs);
      ReadsOnce(env, p, PrintLines(fs), q, LinesEvents(fs), r, LinesEvents(fs));
      LikeNewMessage(p, q);
    }
  }

  function FrontEvents(b: ChunkedBody): seq<Event> {
    ChunksEvents(b.chunks) + ([ChunkHeader(0)] + LinesEvents(b.trailer))
  }

  /** All but the last byte. */
  lemma ChunkedFront(env: Env, p: Rec, b: ChunkedBody) returns (t: Rec)
    requires AtChunk(p) && BodyOk(env, b)
    ensures Reads(env, p, PrintBodyFront(b), t, FrontEvents(b))
    ensures t.state.HeadersAlmostDone? && t.flags.trailing
    ensures var e := p.(flags := p.flags.(trailing := true), contentLength := 0);
      && Alike(e, t)
      && ((forall f :: f in b.trailer ==> Plain(env, f)) ==> Like(t, e.(state := HeadersAlmostDone)))
  {
    hide Reads, Inv, ChunkOk, Plain, Free, NewMessage;
    var r := ChunksReads(env, p, b.chunks);
    SizeReads(env, r, b.last);
    var s := r.(contentLength := 0, flags := r.flags.(trailing := true), state := HeaderFieldStart);
    var q := TrailerReads(env, s, b.trailer);
    var none: seq<Event> := [];
    LastCr(env, q);
    t := q.(state := HeadersAlmostDone);
    ReadsByte(env, q, CR, t);
    assert none + none == none && [CR] == "\r";
    Then(env, s, PrintLines(b.trailer), q, LinesEvents(b.trailer), "\r", t, none);
    assert LinesEvents(b.trailer) + none == LinesEvents(b.trailer);
    var u := PrintLines(b.trailer) + "\r";
    TrailerFirst(env, b.trailer);
    Then(env, r, PrintSize(b.last), s, [ChunkHeader(0)], u, t, LinesEvents(b.trailer));
    ThenAny(env, p, PrintChunks(b.chunks), r, ChunksEvents(b.chunks), PrintSize(b.last) + u, t,
            [ChunkHeader(0)] + LinesEvents(b.trailer));
  }

  /** Decoding undoes encoding: whatever the spelling of the sizes, the extensions
      and the trailer, the callbacks are one header, the data and one completion
      for each chunk, then those of the last chunk and its trailer, then the
      completion of the message. */
  lemma ChunkedRoundTrip(env: Env, p: Rec, b: ChunkedBody) returns (q: Rec)
    requires AtChunk(p) && BodyOk(env, b)
    ensures Ends(env, p, PrintBody(b), q, BodyEvents(b), p.upgrade)
    ensures var e := p.(flags := p.flags.(trailing := true), contentLength := 0);
      && Alike(e, q) && q.state == NewMessage(q)
      && ((forall f :: f in b.trailer ==> Plain(env, f)) ==> Like(q, e.(state := NewMessage(e))))
  {
    hide Reads, Inv, ChunkOk, Plain, Free, NewMessage, BodyOk, Byte, Ends;
    var t := ChunkedFront(env, p, b);
    LastLf(env, t);
    q := t.(state := NewMessage(t.(state := MessageDone)));
    EndsBy(env, p, PrintBodyFront(b), t, FrontEvents(b), LF, Byte(env, t, LF));
    assert PrintBodyFront(b) + [LF] == PrintBody(b);
    assert FrontEvents(b) + [ChunkComplete, MessageComplete] == BodyEvents(b);
    SameNewMessage(t, q.state);
    SameNewMessage(t, MessageDone);
    var e := p.(flags := p.flags.(trailing := true), contentLength := 0);
    SameNewMessage(e, HeadersAlmostDone);
    if forall f :: f in b.trailer ==> Plain(env, f) { LikeNewMessage(t, e.(state := HeadersAlmostDone)); }
  }

  lemma {:induction false} TrailerFirst(env: Env, fs: seq<HeaderLine>)
    requires forall f :: f in fs ==> Free(env, f)
    ensures var u := PrintLines(fs) + "\r"; u != [] && !Blank(u[0])
    decreases |fs|
  {
    hide Free;
    if fs != [] {
      TrailerFirst(env, fs[..|fs| - 1]);
      FreeFirst(env, fs[|fs| - 1]);
      var v := PrintLines(fs[..|fs| - 1]);
      if v != [] { assert PrintLines(fs)[0] == v[0] && (v + "\r")[0] == v[0]; }
    }
  }

  /** The bytes that `on_body` is given, in order. */
  function BodyBytes(t: seq<Event>): string {
    if t == [] then []
    else
      var e := t[|t| - 1];
      BodyBytes(t[..|t| - 1]) + (if e.Data? && e.kind == Body then e.bytes else [])
  }

  function Payload(cs: seq<ChunkText>): string {
    if cs == [] then [] else Payload(cs[..|cs| - 1]) + cs[|cs| - 1].data
  }

  lemma BodySnoc(t: seq<Event>)
    requires t != []
    ensures BodyBytes(t) == BodyBytes(t[..|t| - 1]) + BodyBytes([t[|t| - 1]])
  {
    assert [t[|t| - 1]][..0] == [];
  }

  lemma {:induction false} BodyBytesConcat(t: seq<Event>, u: seq<Event>)
    ensures BodyBytes(t + u) == BodyBytes(t) + BodyBytes(u)
    decreases |u|
  {
    hide BodyBytes;
    BodyNone();
    if u == [] {
      assert t + u == t;
      assert BodyBytes(t) + [] == BodyBytes(t);
    } else {
      var v, e := u[..|u| - 1], [u[|u| - 1]];
      BodyBytesConcat(t, v);
      var w := t + u;
      assert w[..|w| - 1] == t + v && w[|w| - 1] == u[|u| - 1];
      BodySnoc(w);
      BodySnoc(u);
      assert BodyBytes(t) + BodyBytes(v) + BodyBytes(e) == BodyBytes(t) + (BodyBytes(v) + BodyBytes(e));
    }
  }

  lemma BodyNone()
    ensures BodyBytes([]) == []
  {}

  lemma BodyOne(e: Event)
    ensures BodyBytes([e]) == if e.Data? && e.kind == Body then e.bytes else []
  {
    assert [e][..0] == [];
  }

  lemma ChunkBytes(data: string)
    ensures BodyBytes(ChunkEvents(data)) == data
  {
    hide BodyBytes;
    var a, b, c := [ChunkHeader(|data|)], [Data(Body, data)], [ChunkComplete];
    BodyOne(a[0]);
    BodyOne(b[0]);
    BodyOne(c[0]);
    BodyBytesConcat(a, b);
    BodyBytesConcat(a + b, c);
    assert ChunkEvents(data) == a + b + c;
  }

  lemma {:induction false} ChunksPayload(cs: seq<ChunkText>)
    ensures BodyBytes(ChunksEvents(cs)) == Payload(cs)
  {
    if cs != [] {
      var k := |cs| - 1;
      ChunksPayload(cs[..k]);
      BodyBytesConcat(ChunksEvents(cs[..k]), ChunkEvents(cs[k].data));
      ChunkBytes(cs[k].data);
    }
  }
}
