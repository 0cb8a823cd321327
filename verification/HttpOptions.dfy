/** The lists of options in a `Connection` field: which of `keep-alive`, `close` and
    `upgrade` a value sets, whatever it holds.

    Commas cut the value into segments, and an option is a segment that is one of
    the words, in any mixture of cases and with spaces around it. But not every
    segment is looked at:

    * where a segment stops inside one of the words, the comma behind it is taken
      for a part of it, and so is the next segment;
    * after an empty segment, or one that begins with a tab, an underscore or
      another character that `tokens` does not list once it is lower-cased, nothing
      more is looked at. The first segment is exempt. */
module HttpOptions {
  import opened HttpFields
  import opened HttpFraming
  import opened HttpNames
  import opened HttpReads
  import opened HttpStep
  import opened HttpTypes
  import opened Options

  // ----- what a value means -----

  /** How a segment is read: it is looked at, it continues the one before it, or
      the rest of the value is ignored. */
  datatype Stand = Looking | Inside | Lost

  /** What is skipped where a segment begins: the space, and the byte 0. */
  predicate Skipped(c: char) { Lower(c) == ' ' }

  function WithoutSpaces(s: string): string { if s == [] || !Skipped(s[0]) then s else WithoutSpaces(s[1..]) }

  /** The one word that a segment beginning with `c` can be. */
  function WordFor(c: char): Option<string> {
    match Lower(c)
    case 'k' => Some(KEEP_ALIVE)
    case 'c' => Some(CLOSE)
    case 'u' => Some(UPGRADE)
    case _ => None
  }

  predicate Begun(s: string) {
    s != [] && WordFor(s[0]).Some? && |s| < |WordFor(s[0]).value| && Begins(LowerAll(s), WordFor(s[0]).value)
  }

  /** The option that a segment names. */
  function OptionOf(r: string): Option<string> {
    if r != [] && WordFor(r[0]).Some? && WordText(r, WordFor(r[0]).value) then WordFor(r[0]) else None
  }

  /** A segment that cannot begin so, unless it is the first. */
  predicate Stray(s: string) { s == [] || Token(Lower(s[0])).None? }

  /** The segment behind the last comma. */
  function Segment(v: string): string {
    if v == [] || v[|v| - 1] == ',' then [] else Segment(v[..|v| - 1]) + [v[|v| - 1]]
  }

  /** The same without the spaces before it; the first has none. */
  function Trimmed(v: string): string { if ',' !in v then Segment(v) else WithoutSpaces(Segment(v)) }

  function StandAt(v: string): Stand {
    if v == [] then Looking
    else if v[|v| - 1] != ',' then StandAt(v[..|v| - 1])
    else
      var front := v[..|v| - 1];
      var s := Trimmed(front);
      match StandAt(front)
      case Lost => Lost
      case Inside => Looking
      case Looking =>
        if ',' !in front then if s == [] || Begun(s) then Inside else Looking
        else if Stray(s) then Lost
        else if Begun(s) then Inside
        else Looking
  }

  function SetOption(f: Flags, o: Option<string>): Flags {
    match o
    case None => f
    case Some(w) =>
      if w == KEEP_ALIVE then f.(keepAlive := true)
      else if w == CLOSE then f.(close := true)
      else if w == UPGRADE then f.(connectionUpgrade := true)
      else f
  }

  /** The flags set by the segments of `v` that are looked at, up to its last comma. */
  function SetOptions(f: Flags, v: string): Flags {
    if v == [] then f
    else
      var front := v[..|v| - 1];
      var g := SetOptions(f, front);
      if v[|v| - 1] == ',' && StandAt(front).Looking? then SetOption(g, OptionOf(Trimmed(front))) else g
  }

  // ----- the matcher -----

  function Matching(w: string): HeaderState {
    if w == KEEP_ALIVE then MatchingKeepAlive else if w == CLOSE then MatchingClose else MatchingTokenUpgrade
  }

  function Matched(w: string): HeaderState {
    if w == KEEP_ALIVE then KeepAlive else if w == CLOSE then Close else TokenUpgrade
  }

  /** What the matcher says about a segment that is looked at, without the spaces
      before it. */
  predicate SegmentSoFar(first: bool, r: string, h: HeaderState, index: nat) {
    if r == [] then !first && h.MatchingTokenStart? && index == 0
    else if !first && Stray(r) then h.General?
    else if WordFor(r[0]).None? then h.MatchingToken?
    else
      var w := WordFor(r[0]).value;
      if Begun(r) then h == Matching(w) && index == |r| - 1
      else if WordText(r, w) then h == Matched(w)
      else h.MatchingToken?
  }

  /** And about the value read so far. */
  predicate ValueSoFar(f: Flags, v: string, q: Rec) {
    && q.flags == SetOptions(f, v)
    && match StandAt(v)
       case Lost => q.hstate.General?
       case Inside => q.hstate.MatchingToken?
       case Looking => SegmentSoFar(',' !in v, Trimmed(v), q.hstate, q.index)
  }

  lemma {:induction false} SpacesSnoc(s: string, ch: char)
    ensures WithoutSpaces(s + [ch])
            == if WithoutSpaces(s) == [] && Skipped(ch) then [] else WithoutSpaces(s) + [ch]
  {
    hide Skipped;
    if s == [] {
      assert s + [ch] == [ch];
      if Skipped(ch) { assert [ch][1..] == []; }
    } else if Skipped(s[0]) {
      assert (s + [ch])[1..] == s[1..] + [ch];
      SpacesSnoc(s[1..], ch);
    }
  }

  lemma TrimmedSnoc(f: Flags, v: string, ch: char)
    requires ch != ','
    ensures var r := Trimmed(v);
      Trimmed(v + [ch]) == if ',' in v && r == [] && Skipped(ch) then [] else r + [ch]
    ensures ',' in v + [ch] <==> ',' in v
    ensures StandAt(v + [ch]) == StandAt(v)
    ensures SetOptions(f, v + [ch]) == SetOptions(f, v)
  {
    hide WithoutSpaces, Skipped;
    assert (v + [ch])[..|v|] == v;
    if ',' in v { SpacesSnoc(Segment(v), ch); }
  }

  lemma WordsFor(c: char)
    ensures var w := WordFor(c);
      w.Some? ==> w.value in [KEEP_ALIVE, CLOSE, UPGRADE] && Lower(c) == w.value[0] && Token(Lower(c)).Some?
    ensures c == ',' || Skipped(c) ==> WordFor(c).None? && Token(Lower(c)).None?
  {}

  lemma WordShapes()
    ensures |KEEP_ALIVE| == 10 && |CLOSE| == 5 && |UPGRADE| == 7
  {}

  lemma NoComma(w: string, i: nat)
    requires w in [KEEP_ALIVE, CLOSE, UPGRADE] && i < |w|
    ensures w[i] != ','
  {}

  /** A segment of one character. */
  lemma SegmentBegins(ch: char)
    ensures Begun([ch]) <==> WordFor(ch).Some?
  {
    hide Lower, Begins;
    WordsFor(ch);
    WordShapes();
    assert [ch][..0] == [];
    assert LowerAll([ch]) == [] + [Lower(ch)] == [Lower(ch)];
    if WordFor(ch).Some? { FirstLetter(Lower(ch), WordFor(ch).value); }
  }

  /** One more character of a segment. */
  lemma SegmentGrows(r: string, ch: char)
    requires r != [] && WordFor(r[0]).Some?
    ensures var w, s := WordFor(r[0]).value, r + [ch];
      && s[0] == r[0]
      && (Begun(s) <==> Begun(r) && |r| + 1 < |w| && Lower(ch) == w[|r|])
      && (WordText(s, w) <==>
            (Begun(r) && |r| + 1 == |w| && Lower(ch) == w[|r|]) || (!Begun(r) && WordText(r, w) && ch == ' '))
      && (WordText(r, w) ==> |r| >= |w|)
  {
    hide Lower, LowerAll, WordText, WordFor;
    var w := WordFor(r[0]).value;
    WordSnoc(r, ch, w);
    LowerAllLength(r);
    LowerAllLength(r + [ch]);
  }

  /** What one byte does to the matcher and the flags. */
  predicate Goes(q: Rec, ch: char, o: Out) {
    && o == GoWith(o.p, Data(Value, [ch]))
    && o.p == q.(hstate := o.p.hstate, index := o.p.index, flags := o.p.flags)
  }

  lemma MatchingNext(q: Rec, r: string, ch: char)
    requires Begun(r) && q.hstate == Matching(WordFor(r[0]).value) && q.index == |r| - 1
    ensures var o, w := ValueStep(q, ch), WordFor(r[0]).value;
      && Goes(q, ch, o) && o.p.flags == q.flags
      && if Lower(ch) != w[|r|] then o.p.hstate.MatchingToken?
         else if |r| + 1 == |w| then o.p.hstate == Matched(w)
         else o.p.hstate == Matching(w) && o.p.index == |r|
  {
    hide Lower, Begins, LowerAll, WordFor, Token, AfterToken;
    WordsFor(r[0]);
    WordShapes();
  }

  lemma MatchedNext(q: Rec, w: string, ch: char)
    requires w in [KEEP_ALIVE, CLOSE, UPGRADE] && q.hstate == Matched(w)
    ensures var o := ValueStep(q, ch);
      && Goes(q, ch, o)
      && if ch == ',' then o.p.hstate.MatchingTokenStart? && o.p.index == 0 && o.p.flags == SetOption(q.flags, Some(w))
         else o.p.flags == q.flags && o.p.hstate == if ch == ' ' then Matched(w) else MatchingToken
  {
    hide Lower, Token, MatchWord;
    WordShapes();
  }

  lemma TokenNext(q: Rec, ch: char)
    requires q.hstate.MatchingToken? || q.hstate.General?
    ensures var o := ValueStep(q, ch);
      && Goes(q, ch, o) && o.p.flags == q.flags
      && if q.hstate.MatchingToken? && ch == ',' then o.p.hstate.MatchingTokenStart? && o.p.index == 0
         else o.p.hstate == q.hstate
  {
    hide Lower, Token, MatchWord, AfterToken;
  }

  lemma StartNext(q: Rec, ch: char)
    requires q.hstate.MatchingTokenStart? && q.index == 0
    ensures var o := ValueStep(q, ch);
      && Goes(q, ch, o) && o.p.flags == q.flags && o.p.index == 0
      && o.p.hstate == (if WordFor(ch).Some? then Matching(WordFor(ch).value)
                        else if Token(Lower(ch)).Some? then MatchingToken
                        else if Skipped(ch) then MatchingTokenStart
                        else General)
  {
    hide Token, MatchWord, AfterToken;
    WordShapes();
  }

  lemma SegmentNext(first: bool, r: string, q: Rec, ch: char)
    requires SegmentSoFar(first, r, q.hstate, q.index) && ch != ','
    ensures var o := ValueStep(q, ch);
      var s := if !first && r == [] && Skipped(ch) then [] else r + [ch];
      && Goes(q, ch, o) && o.p.flags == q.flags
      && SegmentSoFar(first, s, o.p.hstate, o.p.index)
  {
    hide ValueStep, Lower, WordText, Begun, Begins, Matching, Matched, WordFor;
    BegunShort(r);
    BegunShort(r + [ch]);
    if r == [] {
      assert r + [ch] == [ch];
      StartNext(q, ch);
      SegmentBegins(ch);
      WordsFor(ch);
    } else {
      assert (r + [ch])[0] == r[0];
      if WordFor(r[0]).Some? { SegmentGrows(r, ch); }
      WordsFor(r[0]);
      if (!first && Stray(r)) || WordFor(r[0]).None? {
        TokenNext(q, ch);
      } else if Begun(r) {
        MatchingNext(q, r, ch);
      } else if WordText(r, WordFor(r[0]).value) {
        MatchedNext(q, WordFor(r[0]).value, ch);
      } else {
        TokenNext(q, ch);
      }
    }
  }

  lemma BegunShort(r: string)
    ensures Begun(r) ==> r != [] && WordFor(r[0]).Some? && |r| < |WordFor(r[0]).value|
  {}

  /** A comma after a segment. */
  lemma CommaStand(f: Flags, v: string)
    ensures var w := v + [','];
      && Trimmed(w) == [] && ',' in w
      && StandAt(w) == (match StandAt(v)
                        case Lost => Lost
                        case Inside => Looking
                        case Looking =>
                          if ',' !in v then if Trimmed(v) == [] || Begun(Trimmed(v)) then Inside else Looking
                          else if Stray(Trimmed(v)) then Lost
                          else if Begun(Trimmed(v)) then Inside
                          else Looking)
    ensures SetOptions(f, v + [','])
            == if StandAt(v).Looking? then SetOption(SetOptions(f, v), OptionOf(Trimmed(v)))
               else SetOptions(f, v)
  {
    hide Begun, Stray, OptionOf, SetOption, Trimmed;
    assert (v + [','])[..|v|] == v;
    CommaTrims(v);
  }

  lemma CommaTrims(v: string)
    ensures Trimmed(v + [',']) == []
  {
    assert (v + [','])[|v|] == ',';
  }

  lemma CommaNext(f: Flags, v: string, q: Rec)
    requires ValueSoFar(f, v, q) && (',' in v || Trimmed(v) != [])
    ensures var o := ValueStep(q, ','); Goes(q, ',', o) && ValueSoFar(f, v + [','], o.p)
  {
    hide ValueStep, Lower, WordText, Begun, Begins, Matching, Matched, WordFor, Trimmed, StandAt, SetOptions;
    CommaStand(f, v);
    var r := Trimmed(v);
    LowerComma();
    BegunShort(r);
    if StandAt(v).Looking? {
      if r == [] {
        StartNext(q, ',');
        WordsFor(',');
      } else {
        CommaSegment(',' !in v, r, q);
      }
    } else {
      TokenNext(q, ',');
    }
  }

  lemma LowerComma()
    ensures Lower(',') == ',' && Token(',').None? && !Skipped(',')
  {}

  /** The comma behind a segment that is looked at: an option sets its flag, and a
      word just begun takes the comma in. */
  lemma CommaSegment(first: bool, r: string, q: Rec)
    requires r != [] && SegmentSoFar(first, r, q.hstate, q.index)
    ensures var o := ValueStep(q, ',');
      && Goes(q, ',', o)
      && o.p.flags == SetOption(q.flags, OptionOf(r))
      && if !first && Stray(r) then o.p.hstate.General?
         else if Begun(r) then o.p.hstate.MatchingToken?
         else o.p.hstate.MatchingTokenStart? && o.p.index == 0
  {
    hide ValueStep, WordText, Begun, Begins, Matching, Matched, WordFor, Lower;
    LowerComma();
    WordsFor(r[0]);
    BegunShort(r);
    if WordFor(r[0]).Some? { SegmentGrows(r, ','); }
    if (!first && Stray(r)) || WordFor(r[0]).None? {
      TokenNext(q, ',');
    } else if Begun(r) {
      MatchingNext(q, r, ',');
      NoComma(WordFor(r[0]).value, |r|);
    } else if WordText(r, WordFor(r[0]).value) {
      MatchedNext(q, WordFor(r[0]).value, ',');
    } else {
      TokenNext(q, ',');
    }
  }

  lemma FirstSegment(f: Flags, ch: char)
    ensures SetOptions(f, [ch]) == f
    ensures if ch == ',' then StandAt([ch]) == Inside
            else StandAt([ch]) == Looking && Trimmed([ch]) == [ch] && ',' !in [ch]
  {
    assert [ch][..0] == [];
    assert [] + [ch] == [ch];
    assert Trimmed([]) == [];
    if ch != ',' { TrimmedSnoc(f, [], ch); }
  }

  lemma FirstNext(p: Rec, ch: char)
    requires p.hstate.Connection?
    ensures var o := StepValueStart(p, ch);
      && o == GoWith(o.p, Data(Value, [ch]))
      && o.p == p.(state := HeaderValue, hstate := o.p.hstate, index := 0)
      && ValueSoFar(p.flags, [ch], o.p)
      && (ch != ',' ==> Trimmed([ch]) == [ch])
  {
    hide Begins, WordText, LowerAll, Begun, SetOptions, StandAt, Trimmed;
    SegmentBegins(ch);
    WordsFor(ch);
    FirstSegment(p.flags, ch);
  }

  /** The matcher over a whole value. */
  lemma {:induction false} OptionsRead(env: Env, p: Rec, v: string) returns (q: Rec)
    requires p.state.HeaderValueDiscardWs? && p.hstate.Connection?
    requires v != [] && !Blank(v[0]) && IsValue(env, v)
    ensures ValueReads(env, p, v, q)
    ensures q == p.(state := HeaderValue, hstate := q.hstate, index := q.index, flags := q.flags)
    ensures ValueSoFar(p.flags, v, q) && (',' in v || Trimmed(v) != [])
    decreases |v|
  {
    hide ValueReads, StepValueStart, ValueStep, IsHeaderChar, ValueSoFar, Trimmed, SetOptions, StandAt;
    var front, ch := v[..|v| - 1], v[|v| - 1];
    assert v == front + [ch];
    if front == [] {
      assert v == [ch];
      FirstNext(p, ch);
      q := StepValueStart(p, ch).p;
      ValueBegins(env, p, ch, q);
    } else {
      var r := OptionsRead(env, p, front);
      q := ValueStep(r, ch).p;
      if ch == ',' {
        CommaNext(p.flags, front, r);
      } else {
        LetterNext(p.flags, front, r, ch);
      }
      ValueGoesOn(env, p, front, r, ch, q);
    }
  }

  lemma LetterNext(f: Flags, v: string, q: Rec, ch: char)
    requires ValueSoFar(f, v, q) && ch != ',' && (',' in v || Trimmed(v) != [])
    ensures var o := ValueStep(q, ch); Goes(q, ch, o) && ValueSoFar(f, v + [ch], o.p)
    ensures ',' in v + [ch] || Trimmed(v + [ch]) != []
  {
    hide ValueStep, SegmentSoFar, Trimmed, StandAt, SetOptions, Skipped;
    TrimmedSnoc(f, v, ch);
    if StandAt(v).Looking? { SegmentNext(',' !in v, Trimmed(v), q, ch); } else { TokenNext(q, ch); }
  }

  lemma WordFlags(w: string, f: Flags)
    requires w in [KEEP_ALIVE, CLOSE, UPGRADE]
    ensures TokenFlag(Matched(w), f) == SetOption(f, Some(w)) && TokenFlag(Matching(w), f) == f
  {
    WordShapes();
  }

  lemma OtherFlags(h: HeaderState, f: Flags)
    ensures h.MatchingTokenStart? || h.MatchingToken? || h.General? ==> TokenFlag(h, f) == f
  {}

  lemma EndSegment(first: bool, r: string, q: Rec)
    requires SegmentSoFar(first, r, q.hstate, q.index)
    ensures TokenFlag(q.hstate, q.flags) == SetOption(q.flags, OptionOf(r))
  {
    hide Lower, WordText, Begun, Begins, WordFor, TokenFlag, Matching, Matched;
    OtherFlags(q.hstate, q.flags);
    BegunShort(r);
    if r != [] {
      WordsFor(r[0]);
      if WordFor(r[0]).Some? {
        SegmentGrows(r, ',');
        WordFlags(WordFor(r[0]).value, q.flags);
      }
    }
  }

  /** The end of the line does what a comma would do. */
  lemma EndSets(f: Flags, v: string, q: Rec)
    requires ValueSoFar(f, v, q)
    ensures TokenFlag(q.hstate, q.flags) == SetOptions(f, v + [','])
  {
    hide Trimmed, StandAt, SetOptions, SetOption, OptionOf, SegmentSoFar, TokenFlag;
    CommaStand(f, v);
    OtherFlags(q.hstate, q.flags);
    if StandAt(v).Looking? { EndSegment(',' !in v, Trimmed(v), q); }
  }

  /** A Connection field sets the flags of exactly those options that are looked
      at in its value, and changes nothing else. */
  lemma ConnectionExact(env: Env, p: Rec, v: string) returns (q: Rec)
    requires p.state.HeaderValueDiscardWs? && p.hstate.Connection?
    requires v != [] && !Blank(v[0]) && IsValue(env, v)
    ensures Reads(env, p, v + "\r\n", q, [Data(Value, v)])
    ensures q == p.(state := HeaderFieldStart, hstate := q.hstate, index := q.index,
                    flags := SetOptions(p.flags, v + [',']))
  {
    hide Reads, ValueReads, ValueSoFar, SetOptions, TokenFlag, Trimmed, IsValue;
    var r := OptionsRead(env, p, v);
    ValueEnds(env, p, v, r);
    EndSets(p.flags, v, r);
    q := r.(flags := TokenFlag(r.hstate, r.flags), state := HeaderFieldStart);
  }

  // ----- which options are looked at -----

  /** The segment before the comma at `i` is looked at and names `w`. */
  predicate Named(v: string, i: nat, w: string) {
    i < |v| && v[i] == ',' && StandAt(v[..i]).Looking? && OptionOf(Trimmed(v[..i])) == Some(w)
  }

  lemma SetOptionFlag(f: Flags, o: Option<string>)
    ensures SetOption(f, o).keepAlive <==> f.keepAlive || o == Some(KEEP_ALIVE)
    ensures SetOption(f, o).close <==> f.close || o == Some(CLOSE)
    ensures SetOption(f, o).connectionUpgrade <==> f.connectionUpgrade || o == Some(UPGRADE)
  {
    WordShapes();
    if o.Some? { DifferentWords(o.value); }
    hide KEEP_ALIVE, CLOSE, UPGRADE;
  }

  lemma DifferentWords(w: string)
    ensures w == KEEP_ALIVE ==> w != CLOSE && w != UPGRADE
    ensures w == CLOSE ==> w != UPGRADE
  {
    WordShapes();
  }

  /** The flags are those of the options named. */
  lemma {:induction false} FlagsNamed(f: Flags, v: string)
    ensures SetOptions(f, v).keepAlive <==> f.keepAlive || exists i: nat :: Named(v, i, KEEP_ALIVE)
    ensures SetOptions(f, v).close <==> f.close || exists i: nat :: Named(v, i, CLOSE)
    ensures SetOptions(f, v).connectionUpgrade <==> f.connectionUpgrade || exists i: nat :: Named(v, i, UPGRADE)
  {
    hide StandAt, OptionOf, Trimmed, SetOption;
    if v != [] {
      var k := |v| - 1;
      var front := v[..k];
      FlagsNamed(f, front);
      if v[k] == ',' && StandAt(front).Looking? { SetOptionFlag(SetOptions(f, front), OptionOf(Trimmed(front))); }
      assert v == front + [v[k]];
      NamedSnoc(front, v[k], KEEP_ALIVE);
      NamedSnoc(front, v[k], CLOSE);
      NamedSnoc(front, v[k], UPGRADE);
    }
  }

  lemma NamedSnoc(front: string, ch: char, w: string)
    ensures var v := front + [ch];
      (exists i: nat :: Named(v, i, w)) <==> (exists i: nat :: Named(front, i, w)) || Named(v, |front|, w)
  {
    hide StandAt, OptionOf, Trimmed;
    var v := front + [ch];
    forall i: nat | i < |front| ensures Named(v, i, w) <==> Named(front, i, w) {
      assert front[..i] == v[..i];
    }
    if exists i: nat :: Named(v, i, w) {
      var i: nat :| Named(v, i, w);
      assert i < |front| ==> Named(front, i, w);
    }
    if exists i: nat :: Named(front, i, w) {
      var i: nat :| Named(front, i, w);
      assert Named(v, i, w);
    }
  }

  /** A segment that does not hide the next one. */
  predicate Ordinary(first: bool, s: string) { (if first then s != [] else !Stray(s)) && !Begun(s) }

  /** Every segment is looked at if and only if all segments but the last are ordinary. */
  lemma {:induction false} AllLookedAt(v: string)
    ensures (forall i :: 0 <= i <= |v| && (i == |v| || v[i] == ',') ==> StandAt(v[..i]).Looking?)
            <==> (forall i :: 0 <= i < |v| && v[i] == ',' ==> Ordinary(',' !in v[..i], Trimmed(v[..i])))
  {
    hide Trimmed, Stray, Begun, StandAt;
    ListStarts(NO_FLAGS);
    if v != [] {
      var k := |v| - 1;
      AllLookedAt(v[..k]);
      assert v == v[..k] + [v[k]];
      assert forall i :: 0 <= i <= k ==> v[..k][..i] == v[..i];
      if v[k] == ',' { CommaStand(NO_FLAGS, v[..k]); } else { TrimmedSnoc(NO_FLAGS, v[..k], v[k]); }
      assert v[..|v|] == v;
    } else {
      assert v[..0] == [];
    }
  }

  predicate NoCommas(s: string) { ',' !in s }

  lemma {:induction false} SegmentAdded(f: Flags, v: string, s: string)
    requires NoCommas(s)
    ensures Segment(v + s) == Segment(v) + s && StandAt(v + s) == StandAt(v)
    ensures ',' in v + s <==> ',' in v
    ensures SetOptions(f, v + s) == SetOptions(f, v)
    decreases |s|
  {
    hide StandAt, SetOptions, Segment, Trimmed;
    if s == [] {
      assert v + s == v;
      assert Segment(v) + [] == Segment(v);
    } else {
      var t, ch := s[..|s| - 1], s[|s| - 1];
      assert v + s == v + t + [ch] && s == t + [ch];
      SegmentAdded(f, v, t);
      TrimmedSnoc(f, v + t, ch);
      SegmentSnoc(v + t, ch);
      assert Segment(v) + t + [ch] == Segment(v) + (t + [ch]);
    }
  }

  lemma SegmentSnoc(v: string, ch: char)
    requires ch != ','
    ensures Segment(v + [ch]) == Segment(v) + [ch]
  {
    assert (v + [ch])[..|v|] == v;
  }

  /** A list of two segments: the second counts unless the first has taken it in. */
  lemma TwoOptions(f: Flags, s: string, t: string)
    requires NoCommas(s) && NoCommas(t) && s != []
    ensures SetOptions(f, s + [','] + t + [',']) ==
            if Begun(s) then f else SetOption(SetOption(f, OptionOf(s)), OptionOf(WithoutSpaces(t)))
  {
    hide OptionOf, Begun, WithoutSpaces, Segment, SetOptions, StandAt;
    ListStarts(f);
    SegmentAdded(f, [], s);
    assert [] + s == s;
    CommaStand(f, s);
    SegmentAdded(f, s + [','], t);
    CommaStand(f, s + [','] + t);
    assert Segment(s + [',']) == [] by { SegmentOver(s); }
    assert [] + t == t;
    BegunNoOption(s);
  }

  lemma ListStarts(f: Flags)
    ensures Segment([]) == [] && StandAt([]) == Looking && SetOptions(f, []) == f
  {}

  lemma SegmentOver(s: string)
    ensures Segment(s + [',']) == []
  {}

  lemma BegunNoOption(s: string)
    ensures Begun(s) ==> OptionOf(s) == None
  {
    hide Lower, LowerAll, WordFor;
    if Begun(s) { SegmentGrows(s, ','); }
  }

  /** `c,close` does not close the connection, nor does `a,` with a tab and `close`
      behind it. */
  lemma HiddenOptions(f: Flags, rest: string)
    requires NoCommas(rest)
    ensures SetOptions(f, "c" + [','] + rest + [',']) == f
    ensures SetOptions(f, "a" + [','] + (['\t'] + rest) + [',']) == f
  {
    hide SetOptions, Segment, StandAt, LowerAll;
    TwoOptions(f, "c", rest);
    SegmentBegins('c');
    var t := ['\t'] + rest;
    TwoOptions(f, "a", t);
    SegmentBegins('a');
    assert WithoutSpaces(t) == t && t[0] == '\t';
    assert WordFor('\t').None? && WordFor('a').None?;
  }
}
