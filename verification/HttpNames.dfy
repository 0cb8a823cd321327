/** The machine that recognises header names while they are read, against the
    names it is meant to recognise. */
module HttpNames {
  import opened HttpStep
  import opened HttpTypes

  predicate IsToken(s: string) { forall k :: 0 <= k < |s| ==> Token(s[k]).Some? }

  function LowerToken(c: char): char { match Token(c) case Some(l) => l case None => c }

  /** A header name in lower case. */
  function LowerName(s: string): string {
    if s == [] then [] else LowerName(s[..|s| - 1]) + [LowerToken(s[|s| - 1])]
  }

  /** The header state and the matcher index after the name `s`. */
  function NameRun(s: string): (HeaderState, nat)
    requires s != []
  {
    if |s| == 1 then (FirstNameState(LowerToken(s[0])), 0)
    else
      var r := NameRun(s[..|s| - 1]);
      NameStep(r.0, r.1, LowerToken(s[|s| - 1]))
  }

  /** `w` is the beginning of `word`. */
  predicate Begins(w: string, word: string) {
    |w| <= |word| && forall k :: 0 <= k < |w| ==> w[k] == word[k]
  }

  lemma BeginsSnoc(w: string, c: char, word: string)
    ensures Begins(w + [c], word) <==> Begins(w, word) && |w| < |word| && word[|w|] == c
  {
    if Begins(w + [c], word) {
      forall k | 0 <= k < |w| ensures w[k] == word[k] { assert (w + [c])[k] == word[k]; }
      assert (w + [c])[|w|] == word[|w|];
    }
  }

  lemma BeginsWhole(w: string, word: string)
    requires Begins(w, word) && |w| == |word|
    ensures w == word
  {}

  /** `w` begins none of the names the parser knows. */
  predicate Unknown(w: string) {
    && !Begins(w, CONNECTION) && !Begins(w, PROXY_CONNECTION) && !Begins(w, CONTENT_LENGTH)
    && !Begins(w, TRANSFER_ENCODING) && !Begins(w, UPGRADE)
  }

  /** What a header state says about the name `w` read so far. */
  predicate Recognised(w: string, h: HeaderState, index: nat) {
    && w != []
    && match h
       case General => Unknown(w)
       case C => |w| == 1 && index == 0 && Begins(w, CONNECTION)
       case CO => |w| == 2 && index == 1 && Begins(w, CONNECTION)
       case CON => |w| == 3 && index == 2 && Begins(w, CONNECTION)
       case MatchingConnection => 4 <= |w| < 10 && index == |w| - 1 && Begins(w, CONNECTION)
       case MatchingProxyConnection => |w| < 16 && index == |w| - 1 && Begins(w, PROXY_CONNECTION)
       case MatchingContentLength => 4 <= |w| < 14 && index == |w| - 1 && Begins(w, CONTENT_LENGTH)
       case MatchingTransferEncoding => |w| < 17 && index == |w| - 1 && Begins(w, TRANSFER_ENCODING)
       case MatchingUpgrade => |w| < 7 && index == |w| - 1 && Begins(w, UPGRADE)
       case Connection => (|w| == 10 && Begins(w, CONNECTION)) || (|w| == 16 && Begins(w, PROXY_CONNECTION))
       case ContentLength => |w| == 14 && Begins(w, CONTENT_LENGTH)
       case TransferEncoding => |w| == 17 && Begins(w, TRANSFER_ENCODING)
       case Upgrade => |w| == 7 && Begins(w, UPGRADE)
       case _ => false
  }

  lemma FirstRecognised(c: char)
    ensures Recognised([c], FirstNameState(c), 0)
  {
    hide Begins;
    Shapes([c]);
    FirstLetter(c, CONNECTION);
    FirstLetter(c, PROXY_CONNECTION);
    FirstLetter(c, CONTENT_LENGTH);
    FirstLetter(c, TRANSFER_ENCODING);
    FirstLetter(c, UPGRADE);
  }

  lemma FirstLetter(c: char, word: string)
    requires word != []
    ensures Begins([c], word) <==> c == word[0]
  {
    BeginsSnoc([], c, word);
    assert [] + [c] == [c];
  }

  lemma Shapes(w: string)
    ensures |CONNECTION| == 10 && |PROXY_CONNECTION| == 16 && |CONTENT_LENGTH| == 14
    ensures |TRANSFER_ENCODING| == 17 && |UPGRADE| == 7
  {}

  /** The first letters tell the known names apart, but for two. */
  lemma Apart(w: string)
    requires w != []
    ensures Begins(w, CONNECTION) ==>
              !Begins(w, PROXY_CONNECTION) && !Begins(w, TRANSFER_ENCODING) && !Begins(w, UPGRADE)
    ensures Begins(w, CONTENT_LENGTH) ==>
              !Begins(w, PROXY_CONNECTION) && !Begins(w, TRANSFER_ENCODING) && !Begins(w, UPGRADE)
    ensures Begins(w, PROXY_CONNECTION) ==> !Begins(w, TRANSFER_ENCODING) && !Begins(w, UPGRADE)
    ensures Begins(w, TRANSFER_ENCODING) ==> !Begins(w, UPGRADE)
    ensures |w| <= 3 ==> (Begins(w, CONNECTION) <==> Begins(w, CONTENT_LENGTH))
    ensures |w| >= 4 ==> !Begins(w, CONNECTION) || !Begins(w, CONTENT_LENGTH)
  {
    assert CONNECTION[3] != CONTENT_LENGTH[3];
    assert CONNECTION[0] == CONTENT_LENGTH[0] && CONNECTION[1] == CONTENT_LENGTH[1]
           && CONNECTION[2] == CONTENT_LENGTH[2];
    assert PROXY_CONNECTION[0] == 'p' && TRANSFER_ENCODING[0] == 't' && UPGRADE[0] == 'u' && CONNECTION[0] == 'c';
  }

  lemma StepRecognised(w: string, h: HeaderState, index: nat, c: char)
    requires Recognised(w, h, index)
    ensures Recognised(w + [c], NameStep(h, index, c).0, NameStep(h, index, c).1)
  {
    hide Begins;
    Shapes(w);
    Apart(w);
    Apart(w + [c]);
    BeginsSnoc(w, c, CONNECTION);
    BeginsSnoc(w, c, PROXY_CONNECTION);
    BeginsSnoc(w, c, CONTENT_LENGTH);
    BeginsSnoc(w, c, TRANSFER_ENCODING);
    BeginsSnoc(w, c, UPGRADE);
  }

  lemma {:induction false} RunRecognised(s: string)
    requires s != []
    ensures Recognised(LowerName(s), NameRun(s).0, NameRun(s).1)
  {
    hide Recognised, NameStep, FirstNameState;
    var w := LowerName(s[..|s| - 1]);
    if |s| == 1 {
      assert w == [];
      FirstRecognised(LowerToken(s[0]));
      assert [] + [LowerToken(s[0])] == [LowerToken(s[0])];
    } else {
      RunRecognised(s[..|s| - 1]);
      var r := NameRun(s[..|s| - 1]);
      StepRecognised(w, r.0, r.1, LowerToken(s[|s| - 1]));
    }
  }

  /** The recogniser is exact: it ends in the state of a known header if and only
      if the name is the name of that header, in any mixture of cases. */
  lemma NamesExact(s: string)
    requires s != []
    ensures var h := NameRun(s).0; var w := LowerName(s);
      && (h.Connection? <==> w == CONNECTION || w == PROXY_CONNECTION)
      && (h.ContentLength? <==> w == CONTENT_LENGTH)
      && (h.TransferEncoding? <==> w == TRANSFER_ENCODING)
      && (h.Upgrade? <==> w == UPGRADE)
  {
    hide NameRun, LowerName;
    RunRecognised(s);
    KnownName(LowerName(s), NameRun(s).0, NameRun(s).1);
  }

  lemma KnownName(w: string, h: HeaderState, index: nat)
    requires Recognised(w, h, index)
    ensures h.Connection? <==> w == CONNECTION || w == PROXY_CONNECTION
    ensures h.ContentLength? <==> w == CONTENT_LENGTH
    ensures h.TransferEncoding? <==> w == TRANSFER_ENCODING
    ensures h.Upgrade? <==> w == UPGRADE
  {
    Shapes(w);
    Apart(w);
  }
}
