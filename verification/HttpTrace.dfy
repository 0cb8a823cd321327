/** Traces of callbacks, compared after joining adjacent data callbacks of one kind. */
module HttpTrace {
  import opened HttpTypes

  /** Adds a callback to a joined trace. */
  function Push(t: seq<Event>, e: Event): seq<Event> {
    if |t| > 0 && e.Data? && t[|t| - 1].Data? && t[|t| - 1].kind == e.kind then
      t[..|t| - 1] + [Data(e.kind, t[|t| - 1].bytes + e.bytes)]
    else t + [e]
  }

  /** Joins adjacent data callbacks of one kind. */
  function Join(t: seq<Event>): seq<Event> {
    if t == [] then [] else Push(Join(t[..|t| - 1]), t[|t| - 1])
  }

  /** The traces tell the application the same thing. */
  predicate Same(a: seq<Event>, b: seq<Event>) { Join(a) == Join(b) }

  lemma JoinPush(t: seq<Event>, e: Event)
    ensures Join(t + [e]) == Push(Join(t), e)
  {
    assert (t + [e])[..|t|] == t;
  }

  /** Joining is insensitive to what happened before. */
  lemma {:induction false} SameAfter(a: seq<Event>, b: seq<Event>, t: seq<Event>)
    requires Same(a, b)
    ensures Same(a + t, b + t)
  {
    if t == [] {
      assert a + t == a && b + t == b;
    } else {
      var u, e := t[..|t| - 1], t[|t| - 1];
      SameAfter(a, b, u);
      JoinPush(a + u, e);
      JoinPush(b + u, e);
      assert a + t == a + u + [e] && b + t == b + u + [e];
    }
  }

  lemma PushTwice(t: seq<Event>, k: Kind, x: string, y: string)
    ensures Push(Push(t, Data(k, x)), Data(k, y)) == Push(t, Data(k, x + y))
  {
    var u := Push(t, Data(k, x));
    var z := u[|u| - 1];
    assert z.kind == k;
    assert u[..|u| - 1] + [Data(k, z.bytes + y)] == Push(u, Data(k, y));
    if |t| > 0 && t[|t| - 1].Data? && t[|t| - 1].kind == k {
      var w := t[|t| - 1].bytes;
      assert w + x + y == w + (x + y);
      assert u[..|u| - 1] == t[..|t| - 1];
    } else {
      assert u[..|u| - 1] == t;
    }
  }

  /** Two data callbacks of one kind are as good as one. */
  lemma Split(t: seq<Event>, k: Kind, x: string, y: string)
    ensures Same(t + [Data(k, x), Data(k, y)], t + [Data(k, x + y)])
  {
    assert t + [Data(k, x), Data(k, y)] == t + [Data(k, x)] + [Data(k, y)];
    JoinPush(t + [Data(k, x)], Data(k, y));
    JoinPush(t, Data(k, x));
    JoinPush(t, Data(k, x + y));
    PushTwice(Join(t), k, x, y);
  }

  lemma {:induction false} SameJoin(t: seq<Event>)
    ensures Same(Join(t), t)
  {
    if t != [] {
      var u, e := t[..|t| - 1], t[|t| - 1];
      SameJoin(u);
      var j := Join(u);
      JoinPush(j, e);
      if |j| > 0 && e.Data? && j[|j| - 1].Data? && j[|j| - 1].kind == e.kind {
        var i, l := j[..|j| - 1], j[|j| - 1];
        Split(i, e.kind, l.bytes, e.bytes);
        assert i + [l, e] == j + [e];
      }
    }
  }

  /** Joining is insensitive to what happens afterwards, too. */
  lemma {:induction false} SameBefore(t: seq<Event>, a: seq<Event>, b: seq<Event>)
    requires Same(a, b)
    ensures Same(t + a, t + b)
  {
    PrefixJoin(t, a);
    PrefixJoin(t, b);
  }

  lemma PushAppend(t: seq<Event>, j: seq<Event>, e: Event)
    ensures Same(t + j + [e], t + Push(j, e))
  {
    if |j| > 0 && e.Data? && j[|j| - 1].Data? && j[|j| - 1].kind == e.kind {
      var i, l := j[..|j| - 1], j[|j| - 1];
      Split(t + i, e.kind, l.bytes, e.bytes);
      assert t + i + [l, e] == t + j + [e];
      assert t + i + [Data(e.kind, l.bytes + e.bytes)] == t + Push(j, e);
    } else {
      assert t + j + [e] == t + Push(j, e);
    }
  }

  lemma {:induction false} PrefixJoin(t: seq<Event>, a: seq<Event>)
    ensures Same(t + a, t + Join(a))
    decreases |a|
  {
    if a != [] {
      var b, e := a[..|a| - 1], a[|a| - 1];
      PrefixJoin(t, b);
      assert t + a == t + b + [e];
      SameAfter(t + b, t + Join(b), [e]);
      PushAppend(t, Join(b), e);
      hide Push;
    }
  }

  /** What the callbacks `t` told is part of what the byte-wise trace tells: some
      more callbacks would make it tell what a prefix of that trace tells. */
  predicate ToldAt(t: seq<Event>, ev: seq<Event>, x: seq<Event>, m: nat) {
    m <= |ev| && Same(t + x, ev[..m])
  }

  ghost predicate Told(t: seq<Event>, ev: seq<Event>) {
    exists x: seq<Event>, m: nat {:trigger ToldAt(t, ev, x, m)} :: ToldAt(t, ev, x, m)
  }

  lemma ToldBy(t: seq<Event>, x: seq<Event>, u: seq<Event>, ev: seq<Event>)
    requires Same(t + x, u) && u <= ev
    ensures Told(t, ev)
  {
    hide Join;
    assert ev[..|u|] == u;
    assert ToldAt(t, ev, x, |u|);
  }

  lemma ToldMore(t: seq<Event>, u: seq<Event>, ev: seq<Event>)
    requires Told(t, u) && u <= ev
    ensures Told(t, ev)
  {
    hide Join;
    var x: seq<Event>, m: nat :| ToldAt(t, u, x, m);
    assert ev[..m] == u[..m];
    assert ToldAt(t, ev, x, m);
  }

  /** The trace ends with a data callback of kind `k`. */
  predicate EndsWith(t: seq<Event>, k: Kind) {
    |t| > 0 && t[|t| - 1].Data? && t[|t| - 1].kind == k
  }

  /** After a data callback of kind `k`, one more of no bytes says nothing new. */
  lemma Absorb(t: seq<Event>, k: Kind)
    requires EndsWith(t, k)
    ensures Same(t + [Data(k, [])], t)
  {
    var u, e := t[..|t| - 1], t[|t| - 1];
    Split(u, k, e.bytes, []);
    assert e.bytes + [] == e.bytes;
    assert u + [e, Data(k, [])] == t + [Data(k, [])];
    assert u + [e] == t;
  }
}
