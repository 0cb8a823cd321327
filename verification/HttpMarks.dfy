/** The five marks of `http_parser_execute`: where in the buffer the data that was
    not yet reported begins. */
module HttpMarks {
  import opened HttpTrace
  import opened HttpTypes
  import opened Options

  /** -1 stands for a null mark. */
  datatype Marks = Marks(field: int, value: int, url: int, body: int, status: int)

  const NO_MARKS := Marks(-1, -1, -1, -1, -1)

  function Get(m: Marks, k: Kind): int {
    match k
    case Field => m.field
    case Value => m.value
    case Url => m.url
    case Body => m.body
    case Status => m.status
  }

  function Set(m: Marks, k: Kind, i: int): Marks {
    match k
    case Field => m.(field := i)
    case Value => m.(value := i)
    case Url => m.(url := i)
    case Body => m.(body := i)
    case Status => m.(status := i)
  }

  /** `MARK(k)`: does nothing when the mark is set. */
  function MarkAt(m: Marks, k: Kind, i: nat): Marks { if Get(m, k) < 0 then Set(m, k, i) else m }

  /** `k` is the only mark set, and it is set at or before `i`; or none is. */
  predicate Only(m: Marks, k: Option<Kind>, i: int) {
    match k
    case None => m == NO_MARKS
    case Some(k) => 0 <= Get(m, k) <= i && Set(m, k, -1) == NO_MARKS
  }

  /** What one mark still has to report at position `i`. */
  function Left(m: int, k: Kind, data: string, i: nat): seq<Event> {
    if 0 <= m < i <= |data| then [Data(k, data[m..i])] else []
  }

  /** The callbacks made, in this order, when the buffer ends at `i`. */
  function Leftover(m: Marks, data: string, i: nat): seq<Event> {
    Left(m.field, Field, data, i) + Left(m.value, Value, data, i) + Left(m.url, Url, data, i)
    + Left(m.body, Body, data, i) + Left(m.status, Status, data, i)
  }

  lemma LeftoverOne(m: Marks, k: Kind, data: string, i: nat)
    requires Only(m, Some(k), i)
    ensures Leftover(m, data, i) == Left(Get(m, k), k, data, i)
  {}

  lemma LeftoverNone(m: Marks, data: string, i: nat)
    requires Only(m, None, i)
    ensures Leftover(m, data, i) == []
  {}

  /** One `Data` event a byte. */
  function Letters(k: Kind, s: string): seq<Event> {
    if s == [] then [] else Letters(k, s[..|s| - 1]) + [Data(k, [s[|s| - 1]])]
  }

  lemma LettersSnoc(k: Kind, s: string, c: char)
    ensures Letters(k, s + [c]) == Letters(k, s) + [Data(k, [c])]
  {
    assert (s + [c])[..|s|] == s;
  }

  lemma LettersOne(k: Kind, c: char)
    ensures Letters(k, [c]) == [Data(k, [c])]
  {
    LettersSnoc(k, [], c);
    assert [] + [c] == [c];
  }

  /** The letters of a non-empty string say the same as the string. */
  lemma {:induction false} JoinLetters(t: seq<Event>, k: Kind, s: string)
    requires s != []
    ensures Same(t + Letters(k, s), t + [Data(k, s)])
  {
    hide Join;
    var u, c := s[..|s| - 1], s[|s| - 1];
    assert s == u + [c];
    if u == [] {
      assert Letters(k, u) == [];
      assert t + Letters(k, s) == t + [Data(k, s)];
    } else {
      JoinLetters(t, k, u);
      assert t + Letters(k, s) == t + Letters(k, u) + [Data(k, [c])];
      SameAfter(t + Letters(k, u), t + [Data(k, u)], [Data(k, [c])]);
      Split(t, k, u, [c]);
      assert t + [Data(k, u)] + [Data(k, [c])] == t + [Data(k, u), Data(k, [c])];
    }
  }

  /** Reading `data[i..j]` under a mark: what is left to report grows by as much
      as the byte-wise trace does. */
  lemma LeftGrows(log: seq<Event>, ev: seq<Event>, m: int, k: Kind, data: string, i: nat, j: nat)
    requires 0 <= m <= i < j <= |data|
    requires Same(log + Left(m, k, data, i), ev)
    ensures Same(log + Left(m, k, data, j), ev + Letters(k, data[i..j]))
  {
    hide Join, Letters;
    SameAfter(log + Left(m, k, data, i), ev, Letters(k, data[i..j]));
    if m < i {
      JoinLetters(log + [Data(k, data[m..i])], k, data[i..j]);
      Split(log, k, data[m..i], data[i..j]);
      assert data[m..i] + data[i..j] == data[m..j];
      assert log + [Data(k, data[m..i])] + [Data(k, data[i..j])] == log + [Data(k, data[m..i]), Data(k, data[i..j])];
    } else {
      JoinLetters(log, k, data[i..j]);
      assert log + [] == log;
    }
  }

  /** Reporting what a mark holds matches the closing event of the byte-wise trace. */
  lemma LeftCloses(log: seq<Event>, ev: seq<Event>, m: int, k: Kind, data: string, i: nat)
    requires 0 <= m <= i <= |data|
    requires Same(log + Left(m, k, data, i), ev)
    ensures Same(log + [Data(k, data[m..i])], ev + [Data(k, [])])
  {
    hide Join;
    SameAfter(log + Left(m, k, data, i), ev, [Data(k, [])]);
    if m < i {
      Absorb(log + [Data(k, data[m..i])], k);
    } else {
      assert log + [] == log && data[m..i] == [];
    }
  }
}
