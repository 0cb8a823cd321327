/** `Server`: routing packets to connections by connection ID. */
module CidRouting {
  import opened Octets

  /** The key of a connection ID: its bytes. */
  type Cid = Bytes

  /** What `Server` asks of a `Handler`; `pscid` is empty without a preferred address. */
  datatype Handler = Handler(scid: Cid, rcid: Cid, pscid: Cid)

  /** The QUIC library issues a connection ID, or retires one. */
  datatype CidEvent = Issue(cid: Cid) | Retire(cid: Cid)

  /** How a packet with an unknown destination ends: no handler is made; a handler
      is made and dropped (`init`, `on_read` or `on_write` failed); it is kept. */
  datatype Fate = NotCreated | Dropped | Committed

  /** What happens to the server. `Accept` is a packet whose destination is unknown.
      `Run` is anything that runs one connection: a packet for it, its write watcher
      or one of its timers; `gone` if the server removes it afterwards. */
  datatype Action =
    | Accept(dcid: Cid, scid: Cid, pscid: Cid, events: seq<CidEvent>, fate: Fate)
    | Run(scid: Cid, events: seq<CidEvent>, gone: bool)

  /** The two maps; `live` is the library's list of IDs for each connection, `ever`
      the IDs that have been in use. */
  datatype Routing = Routing(handlers: map<Cid, Handler>, ctos: map<Cid, Cid>, live: map<Cid, set<Cid>>, ever: set<Cid>)

  function Start(): Routing { Routing(map[], map[], map[], {[]}) }

  // ----- the specification -----

  /** `std::map::emplace`: an entry that exists is not replaced. */
  function Emplace<V>(m: map<Cid, V>, k: Cid, v: V): map<Cid, V> { if k in m then m else m[k := v] }

  /** `ctos_` after the callbacks for new and retired IDs of connection `owner`. */
  function CtosAfter(ctos: map<Cid, Cid>, owner: Cid, es: seq<CidEvent>): map<Cid, Cid> {
    if es == [] then ctos
    else
      var c := CtosAfter(ctos, owner, es[..|es| - 1]);
      match es[|es| - 1]
      case Issue(cid) => Emplace(c, cid, owner)
      case Retire(cid) => c - {cid}
  }

  function LiveAfter(live: set<Cid>, es: seq<CidEvent>): set<Cid> {
    if es == [] then live
    else
      var l := LiveAfter(live, es[..|es| - 1]);
      match es[|es| - 1]
      case Issue(cid) => l + {cid}
      case Retire(cid) => l - {cid}
  }

  function EverAfter(ever: set<Cid>, es: seq<CidEvent>): set<Cid> {
    if es == [] then ever
    else
      var e := EverAfter(ever, es[..|es| - 1]);
      match es[|es| - 1]
      case Issue(cid) => e + {cid}
      case Retire(cid) => e
  }

  /** The IDs of a connection that was just made. */
  function FirstIds(scid: Cid, pscid: Cid): set<Cid> { {scid} + if pscid == [] then {} else {pscid} }

  /** The keys that `Server::remove` erases. */
  function Keys(h: Handler, live: set<Cid>): set<Cid> { {h.rcid, h.pscid} + live }

  function Removed(s: Routing, scid: Cid): Routing
    requires scid in s.handlers && scid in s.live
  {
    var h := s.handlers[scid];
    Routing(s.handlers - {h.scid}, s.ctos - Keys(h, s.live[scid]), s.live - {scid}, s.ever)
  }

  /** The entries that a committed handler adds. */
  function Commit(ctos: map<Cid, Cid>, h: Handler): map<Cid, Cid> {
    var c := Emplace(ctos, h.rcid, h.scid);
    if h.pscid == [] then c else Emplace(c, h.pscid, h.scid)
  }

  function Next(s: Routing, a: Action): Routing {
    match a
    case Accept(dcid, scid, pscid, es, fate) =>
      if fate.NotCreated? then s
      else
        var ever := EverAfter(s.ever + {dcid, scid, pscid}, es);
        var ctos := CtosAfter(s.ctos, scid, es);
        if fate.Dropped? then s.(ctos := ctos, ever := ever)
        else
          var h := Handler(scid, dcid, pscid);
          Routing(Emplace(s.handlers, scid, h), Commit(ctos, h), s.live[scid := LiveAfter(FirstIds(scid, pscid), es)],
                  ever)
    case Run(scid, es, gone) =>
      if scid !in s.handlers || scid !in s.live then s
      else
        var t := Routing(s.handlers, CtosAfter(s.ctos, scid, es), s.live[scid := LiveAfter(s.live[scid], es)],
                         EverAfter(s.ever, es));
        if gone then Removed(t, scid) else t
  }

  // ----- lookup -----

  /** `Broken` is the assertion in `Server::on_read`. */
  datatype Lookup = Unknown | Found(scid: Cid) | Broken

  function Resolve(s: Routing, dcid: Cid): Lookup {
    if dcid in s.handlers then Found(dcid)
    else if dcid !in s.ctos then Unknown
    else if s.ctos[dcid] in s.handlers then Found(s.ctos[dcid])
    else Broken
  }

  // ----- the environment -----

  /** New IDs are fresh; only IDs in the library's list are retired. */
  predicate LegalEvents(ever: set<Cid>, live: set<Cid>, es: seq<CidEvent>) {
    es == []
    || (var p := es[..|es| - 1];
        && LegalEvents(ever, live, p)
        && match es[|es| - 1] {
             case Issue(cid) => cid !in EverAfter(ever, p)
             case Retire(cid) => cid in LiveAfter(live, p)
           })
  }

  predicate Legal(s: Routing, a: Action) {
    match a
    case Accept(dcid, scid, pscid, es, fate) =>
      && Resolve(s, dcid).Unknown?
      && (!fate.NotCreated? ==>
            && scid !in s.ever + {dcid} && (pscid == [] || pscid !in s.ever + {dcid, scid})
            && LegalEvents(s.ever + {dcid, scid, pscid}, FirstIds(scid, pscid), es))
    case Run(scid, es, gone) => scid in s.handlers && (scid in s.live ==> LegalEvents(s.ever, s.live[scid], es))
  }

  /** A handler that is dropped has left no connection ID behind. */
  predicate Clean(a: Action) {
    a.Accept? && a.fate.Dropped? ==> LiveAfter({}, a.events) == {}
  }

  // ----- the invariant -----

  /** Every ID that is reserved for a connection. */
  function Reserved(h: Handler, live: set<Cid>): set<Cid> { {h.scid, h.rcid, h.pscid} + live }

  /** Each handler is keyed by its own ID. */
  predicate Keyed(s: Routing) {
    s.live.Keys == s.handlers.Keys && forall k :: k in s.handlers ==> s.handlers[k].scid == k
  }

  /** Every entry leads to a handler, and is one of those that `remove` erases. */
  predicate Sound(s: Routing)
    requires Keyed(s)
  {
    forall k :: k in s.ctos ==> s.ctos[k] in s.handlers && k in Keys(s.handlers[s.ctos[k]], s.live[s.ctos[k]])
  }

  /** Every live ID leads to its handler. */
  predicate Complete(s: Routing) {
    forall k, c :: k in s.live && c in s.live[k] ==> c == k || (c in s.ctos && s.ctos[c] == k)
  }

  /** No live ID is reserved for another handler. */
  predicate Separate(s: Routing)
    requires Keyed(s)
  {
    forall k, l :: k in s.live && l in s.live && k != l ==> s.live[k] !! Reserved(s.handlers[l], s.live[l])
  }

  /** All of them have been in use. */
  predicate Known(s: Routing)
    requires Keyed(s)
  {
    && s.ctos.Keys <= s.ever && [] in s.ever
    && forall k :: k in s.live ==> Reserved(s.handlers[k], s.live[k]) <= s.ever && [] !in s.live[k]
  }

  predicate Inv(s: Routing) { Keyed(s) && Sound(s) && Complete(s) && Separate(s) && Known(s) }

  lemma StartInv()
    ensures Inv(Start())
  {}

  /** The lookup assertion holds, and every live ID is routed to its connection. */
  lemma InvRoutes(s: Routing)
    requires Inv(s)
    ensures forall d :: !Resolve(s, d).Broken?
    ensures forall k, c :: k in s.live && c in s.live[k] ==> Resolve(s, c) == Found(k)
  {
    forall k, c | k in s.live && c in s.live[k] ensures Resolve(s, c) == Found(k) {
      assert c != k && c in s.live ==> s.live[k] !! Reserved(s.handlers[c], s.live[c]);
    }
  }

  // ----- removing -----

  /** Removing a connection: no destination leads to it any more, and the live IDs
      of the others still lead to them. */
  lemma RemovedIsGone(s: Routing, scid: Cid)
    requires Inv(s) && scid in s.handlers
    ensures Inv(Removed(s, scid))
    ensures forall d :: Resolve(Removed(s, scid), d) != Found(scid)
  {
    hide Complete, Separate, Known, Sound;
    assert Keyed(Removed(s, scid));
    RemovedSound(s, scid);
    RemovedComplete(s, scid);
    RemovedSeparate(s, scid);
    RemovedKnown(s, scid);
  }

  lemma RemovedSound(s: Routing, scid: Cid)
    requires Inv(s) && scid in s.handlers
    ensures Sound(Removed(s, scid))
    ensures forall d :: Resolve(Removed(s, scid), d) != Found(scid)
  {
    hide Complete, Separate, Known;
  }

  lemma RemovedSeparate(s: Routing, scid: Cid)
    requires Inv(s) && scid in s.handlers
    ensures Separate(Removed(s, scid))
  {
    hide Complete, Sound, Known, Keys;
    var t := Removed(s, scid);
    forall k, l | k in t.live && l in t.live && k != l ensures t.live[k] !! Reserved(t.handlers[l], t.live[l]) {
      assert s.live[k] !! Reserved(s.handlers[l], s.live[l]);
    }
  }

  lemma RemovedKnown(s: Routing, scid: Cid)
    requires Inv(s) && scid in s.handlers
    ensures Known(Removed(s, scid))
  {
    hide Complete, Sound, Separate;
    var t := Removed(s, scid);
    forall k | k in t.live ensures Reserved(t.handlers[k], t.live[k]) <= t.ever && [] !in t.live[k] {
      assert k in s.live;
    }
  }

  lemma RemovedComplete(s: Routing, scid: Cid)
    requires Inv(s) && scid in s.handlers
    ensures Complete(Removed(s, scid))
  {
    hide Sound, Known;
    var t := Removed(s, scid);
    forall k, c | k in t.live && c in t.live[k] ensures c == k || (c in t.ctos && t.ctos[c] == k) {
      assert k in s.live && c in s.live[k];
      assert s.live[k] !! Reserved(s.handlers[scid], s.live[scid]);
    }
  }

  // ----- issuing and retiring -----

  /** What the callbacks of one connection do to the entries: they keep those of
      others, and the new ones are fresh live IDs of this one. */
  lemma {:induction false} EventsKeep(ctos: map<Cid, Cid>, owner: Cid, ever: set<Cid>, live: set<Cid>,
                                      es: seq<CidEvent>)
    requires LegalEvents(ever, live, es) && ctos.Keys <= ever && live <= ever
    ensures var a, l, e := CtosAfter(ctos, owner, es), LiveAfter(live, es), EverAfter(ever, es);
      && ever <= e && a.Keys <= e && l <= e
      && (forall k :: k in a && k in live ==> k in l)
      && (forall k :: k in a ==> (k in ctos && a[k] == ctos[k]) || (k !in ever && k in l && a[k] == owner))
      && (forall k :: k in ctos && (k in live ==> k in l) ==> k in a && a[k] == ctos[k])
      && (forall c :: c in l ==> c in live || (c !in ever && c in a && a[c] == owner))
  {
    if es != [] { EventsKeep(ctos, owner, ever, live, es[..|es| - 1]); }
  }

  lemma RunKeeps(s: Routing, scid: Cid, es: seq<CidEvent>)
    requires Inv(s) && Legal(s, Run(scid, es, false))
    ensures Inv(Next(s, Run(scid, es, false)))
  {
    hide CtosAfter, LiveAfter, EverAfter, LegalEvents;
    hide Complete, Separate, Known, Sound;
    RunSound(s, scid, es);
    RunKnown(s, scid, es);
    RunComplete(s, scid, es);
    RunSeparate(s, scid, es);
  }

  lemma RunSound(s: Routing, scid: Cid, es: seq<CidEvent>)
    requires Inv(s) && Legal(s, Run(scid, es, false))
    ensures Sound(Next(s, Run(scid, es, false)))
  {
    hide CtosAfter, LiveAfter, EverAfter, LegalEvents, Complete, Separate;
    LiveKnown(s, scid);
    EventsKeep(s.ctos, scid, s.ever, s.live[scid], es);
  }

  lemma RunKnown(s: Routing, scid: Cid, es: seq<CidEvent>)
    requires Inv(s) && Legal(s, Run(scid, es, false))
    ensures Known(Next(s, Run(scid, es, false)))
  {
    hide CtosAfter, LiveAfter, EverAfter, LegalEvents, Complete, Separate, Sound;
    LiveKnown(s, scid);
    EventsKeep(s.ctos, scid, s.ever, s.live[scid], es);
    var t := Next(s, Run(scid, es, false));
    forall k | k in t.live ensures Reserved(t.handlers[k], t.live[k]) <= t.ever && [] !in t.live[k] {
      assert Reserved(s.handlers[k], s.live[k]) <= s.ever;
    }
  }

  lemma LiveKnown(s: Routing, scid: Cid)
    requires Inv(s) && scid in s.handlers
    ensures s.live[scid] <= s.ever && s.handlers[scid] == s.handlers[scid].(scid := scid)
    ensures Reserved(s.handlers[scid], s.live[scid]) <= s.ever
  {
    hide Sound, Complete, Separate;
    assert Reserved(s.handlers[scid], s.live[scid]) <= s.ever;
  }

  lemma RunComplete(s: Routing, scid: Cid, es: seq<CidEvent>)
    requires Inv(s) && Legal(s, Run(scid, es, false))
    ensures Complete(Next(s, Run(scid, es, false)))
  {
    hide CtosAfter, LiveAfter, EverAfter, LegalEvents, Sound;
    var t := Next(s, Run(scid, es, false));
    LiveKnown(s, scid);
    EventsKeep(s.ctos, scid, s.ever, s.live[scid], es);
    forall k, c | k in t.live && c in t.live[k] ensures c == k || (c in t.ctos && t.ctos[c] == k) {
      if k != scid { assert s.live[k] !! Reserved(s.handlers[scid], s.live[scid]); }
    }
  }

  lemma RunSeparate(s: Routing, scid: Cid, es: seq<CidEvent>)
    requires Inv(s) && Legal(s, Run(scid, es, false))
    ensures Separate(Next(s, Run(scid, es, false)))
  {
    hide CtosAfter, LiveAfter, EverAfter, LegalEvents, Sound, Complete;
    var t := Next(s, Run(scid, es, false));
    LiveKnown(s, scid);
    EventsKeep(s.ctos, scid, s.ever, s.live[scid], es);
    forall k, l | k in t.live && l in t.live && k != l ensures t.live[k] !! Reserved(t.handlers[l], t.live[l]) {
      assert s.live[k] !! Reserved(s.handlers[l], s.live[l]);
      assert Reserved(s.handlers[l], s.live[l]) <= s.ever && s.live[k] <= s.ever;
    }
  }

  // ----- a new connection -----

  lemma CommitKeeps(s: Routing, dcid: Cid, scid: Cid, pscid: Cid, es: seq<CidEvent>)
    requires Inv(s) && Legal(s, Accept(dcid, scid, pscid, es, Committed))
    ensures Inv(Next(s, Accept(dcid, scid, pscid, es, Committed)))
  {
    hide CtosAfter, LiveAfter, EverAfter, LegalEvents, Sound, Complete, Separate, Known, Resolve, Commit, FirstIds;
    assert Keyed(Next(s, Accept(dcid, scid, pscid, es, Committed)));
    CommitKnown(s, dcid, scid, pscid, es);
    CommitSound(s, dcid, scid, pscid, es);
    CommitComplete(s, dcid, scid, pscid, es);
    CommitSeparate(s, dcid, scid, pscid, es);
  }

  lemma CommitSound(s: Routing, dcid: Cid, scid: Cid, pscid: Cid, es: seq<CidEvent>)
    requires Inv(s) && Legal(s, Accept(dcid, scid, pscid, es, Committed))
    ensures Sound(Next(s, Accept(dcid, scid, pscid, es, Committed)))
  {
    hide CtosAfter, LiveAfter, EverAfter, LegalEvents, Complete, Separate;
    EventsKeep(s.ctos, scid, s.ever + {dcid, scid, pscid}, FirstIds(scid, pscid), es);
  }

  lemma CommitComplete(s: Routing, dcid: Cid, scid: Cid, pscid: Cid, es: seq<CidEvent>)
    requires Inv(s) && Legal(s, Accept(dcid, scid, pscid, es, Committed))
    ensures Complete(Next(s, Accept(dcid, scid, pscid, es, Committed)))
  {
    hide CtosAfter, LiveAfter, EverAfter, LegalEvents, Sound, Separate;
    EventsKeep(s.ctos, scid, s.ever + {dcid, scid, pscid}, FirstIds(scid, pscid), es);
  }

  lemma CommitKnown(s: Routing, dcid: Cid, scid: Cid, pscid: Cid, es: seq<CidEvent>)
    requires Inv(s) && Legal(s, Accept(dcid, scid, pscid, es, Committed))
    ensures Known(Next(s, Accept(dcid, scid, pscid, es, Committed)))
  {
    hide CtosAfter, LiveAfter, EverAfter, LegalEvents, Sound, Separate, Complete, Resolve;
    EventsKeep(s.ctos, scid, s.ever + {dcid, scid, pscid}, FirstIds(scid, pscid), es);
    var t := Next(s, Accept(dcid, scid, pscid, es, Committed));
    forall k | k in t.live ensures Reserved(t.handlers[k], t.live[k]) <= t.ever && [] !in t.live[k] {
      if k != scid { LiveKnown(s, k); }
    }
  }

  lemma CommitSeparate(s: Routing, dcid: Cid, scid: Cid, pscid: Cid, es: seq<CidEvent>)
    requires Inv(s) && Legal(s, Accept(dcid, scid, pscid, es, Committed))
    ensures Separate(Next(s, Accept(dcid, scid, pscid, es, Committed)))
  {
    hide CtosAfter, LiveAfter, EverAfter, LegalEvents, Sound, Complete, Resolve, Commit, Known;
    var t := Next(s, Accept(dcid, scid, pscid, es, Committed));
    NewIdsApart(s, dcid, scid, pscid, es);
    forall k, l | k in t.live && l in t.live && k != l ensures t.live[k] !! Reserved(t.handlers[l], t.live[l]) {
      if k != scid { LiveKnown(s, k); }
      if l != scid { LiveKnown(s, l); }
    }
  }

  /** The IDs of a new connection are not those of an old one. */
  lemma NewIdsApart(s: Routing, dcid: Cid, scid: Cid, pscid: Cid, es: seq<CidEvent>)
    requires Inv(s) && Legal(s, Accept(dcid, scid, pscid, es, Committed))
    ensures LiveAfter(FirstIds(scid, pscid), es) !! s.ever && scid !in s.ever
    ensures pscid == [] || pscid !in s.ever
    ensures forall k :: k in s.live ==> dcid !in s.live[k] && [] !in s.live[k]
  {
    hide CtosAfter, LiveAfter, EverAfter, LegalEvents, Sound, Separate, Complete, Resolve;
    EventsKeep(s.ctos, scid, s.ever + {dcid, scid, pscid}, FirstIds(scid, pscid), es);
    InvRoutes(s);
  }

  /** The IDs that a connection issued and did not retire. */
  lemma {:induction false} IssuedOnly(ever: set<Cid>, live: set<Cid>, es: seq<CidEvent>)
    requires LegalEvents(ever, live, es) && live <= ever
    ensures ever <= EverAfter(ever, es)
    ensures forall c :: c in LiveAfter({}, es) <==> c in LiveAfter(live, es) && c !in ever
  {
    if es != [] { IssuedOnly(ever, live, es[..|es| - 1]); }
  }

  /** A handler that is dropped before it is committed: routing stays sound exactly
      when it has retired every ID that it issued; each ID left behind trips the
      lookup assertion. */
  lemma DroppedKeeps(s: Routing, a: Action)
    requires Inv(s) && Legal(s, a) && a.Accept? && a.fate.Dropped?
    ensures Inv(Next(s, a)) <==> Clean(a)
    ensures forall c :: Resolve(Next(s, a), c).Broken? <==> c in LiveAfter({}, a.events)
  {
    hide CtosAfter, LiveAfter, EverAfter, LegalEvents;
    var t := Next(s, a);
    var ever, first := s.ever + {a.dcid, a.scid, a.pscid}, FirstIds(a.scid, a.pscid);
    EventsKeep(s.ctos, a.scid, ever, first, a.events);
    IssuedOnly(ever, first, a.events);
    DroppedEntries(s, a);
    if Clean(a) { DroppedInv(s, a); }
  }

  lemma DroppedEntries(s: Routing, a: Action)
    requires Inv(s) && Legal(s, a) && a.Accept? && a.fate.Dropped?
    ensures var t := Next(s, a);
      && (forall k :: k in s.ctos ==> k in t.ctos && t.ctos[k] == s.ctos[k])
      && (forall k :: k in t.ctos && k !in s.ctos ==> t.ctos[k] == a.scid && a.scid !in s.handlers)
      && (forall k :: k in LiveAfter({}, a.events) <==> k in t.ctos && k !in s.ctos)
      && (forall k :: k in LiveAfter({}, a.events) ==> k !in s.handlers)
  {
    hide CtosAfter, LiveAfter, EverAfter, LegalEvents, Complete, Separate, Sound;
    var ever, first := s.ever + {a.dcid, a.scid, a.pscid}, FirstIds(a.scid, a.pscid);
    EventsKeep(s.ctos, a.scid, ever, first, a.events);
    IssuedOnly(ever, first, a.events);
    assert forall k :: k in s.handlers ==> k in Reserved(s.handlers[k], s.live[k]);
  }

  lemma DroppedInv(s: Routing, a: Action)
    requires Inv(s) && Legal(s, a) && a.Accept? && a.fate.Dropped? && Clean(a)
    ensures Inv(Next(s, a))
  {
    hide CtosAfter, LiveAfter, EverAfter, LegalEvents, Reserved;
    DroppedEntries(s, a);
    EventsKeep(s.ctos, a.scid, s.ever + {a.dcid, a.scid, a.pscid}, FirstIds(a.scid, a.pscid), a.events);
    assert Next(s, a).ctos == s.ctos;
  }

  // ----- every run -----

  lemma NextInv(s: Routing, a: Action)
    requires Inv(s) && Legal(s, a) && Clean(a)
    ensures Inv(Next(s, a))
  {
    hide Inv, Legal;
    match a {
      case Accept(dcid, scid, pscid, es, fate) =>
        match fate {
          case NotCreated =>
          case Dropped => DroppedKeeps(s, a);
          case Committed => CommitKeeps(s, dcid, scid, pscid, es);
        }
      case Run(scid, es, gone) => RunInv(s, scid, es, gone);
    }
  }

  lemma RunInv(s: Routing, scid: Cid, es: seq<CidEvent>, gone: bool)
    requires Inv(s) && Legal(s, Run(scid, es, gone))
    ensures Inv(Next(s, Run(scid, es, gone)))
  {
    hide Sound, Complete, Separate, Known;
    RunKeeps(s, scid, es);
    if gone { RemovedIsGone(Next(s, Run(scid, es, false)), scid); }
  }

  function RunAll(s: Routing, actions: seq<Action>): Routing {
    if actions == [] then s else Next(RunAll(s, actions[..|actions| - 1]), actions[|actions| - 1])
  }

  predicate LegalRun(s: Routing, actions: seq<Action>) {
    actions == []
    || (var p := actions[..|actions| - 1];
        LegalRun(s, p) && Legal(RunAll(s, p), actions[|actions| - 1]) && Clean(actions[|actions| - 1]))
  }

  /** In every reachable state every live ID is routed to its connection, and the
      lookup assertion holds. */
  lemma {:induction false} ReachableRoutes(actions: seq<Action>)
    requires LegalRun(Start(), actions)
    ensures var s := RunAll(Start(), actions);
      && Inv(s)
      && (forall d :: !Resolve(s, d).Broken?)
      && (forall k, c :: k in s.live && c in s.live[k] ==> Resolve(s, c) == Found(k))
  {
    hide Inv, Legal, Next, Resolve;
    if actions == [] {
      StartInv();
    } else {
      var n := |actions| - 1;
      ReachableRoutes(actions[..n]);
      NextInv(RunAll(Start(), actions[..n]), actions[n]);
    }
    InvRoutes(RunAll(Start(), actions));
  }

  // ----- the destination that a connection was opened with -----

  /** The client's first destination leads to the connection it opened. */
  predicate Routed(s: Routing, k: Cid)
    requires k in s.handlers
  {
    Resolve(s, s.handlers[k].rcid) == Found(k)
  }

  /** Such destinations are neither keys of handlers nor IDs that the library lists. */
  predicate Origins(s: Routing) {
    forall k :: k in s.handlers ==>
      s.handlers[k].rcid !in s.handlers && forall l :: l in s.live ==> s.handlers[k].rcid !in s.live[l]
  }

  /** The action removes another connection, and with it the entry of the
      destination that opened `k`: it was that one's first destination, too, or its
      preferred-address ID. */
  predicate Erases(s: Routing, a: Action, k: Cid) {
    && a.Run? && a.gone && a.scid != k && a.scid in s.handlers && k in s.handlers
    && (s.handlers[k].rcid == s.handlers[a.scid].rcid || s.handlers[k].rcid == s.handlers[a.scid].pscid)
  }

  lemma StartOrigins()
    ensures Origins(Start())
  {}

  /** What the destination of a connection means, from one action to the next. */
  predicate StepRoutes(s: Routing, a: Action) {
    var t := Next(s, a);
    && Origins(t)
    && (forall k :: k in s.handlers && k in t.handlers ==> (Routed(t, k) <==> Routed(s, k) && !Erases(s, a, k)))
    && (forall k :: k in t.handlers && k !in s.handlers ==> Routed(t, k) && a.Accept? && k == a.scid)
  }

  lemma CommitRoutes(s: Routing, dcid: Cid, scid: Cid, pscid: Cid, es: seq<CidEvent>)
    requires Inv(s) && Origins(s) && Legal(s, Accept(dcid, scid, pscid, es, Committed))
    ensures StepRoutes(s, Accept(dcid, scid, pscid, es, Committed))
  {
    hide CtosAfter, LiveAfter, EverAfter, LegalEvents, Inv, Resolve, Commit, Legal;
    var t := Next(s, Accept(dcid, scid, pscid, es, Committed));
    CommitRoutesIt(s, dcid, scid, pscid, es);
    forall k | k in s.handlers
      ensures k in t.handlers && t.handlers[k] == s.handlers[k] && (Routed(t, k) <==> Routed(s, k))
      ensures s.handlers[k].rcid !in t.handlers && s.handlers[k].rcid !in t.live[scid] && k != scid
    {
      CommitRoutesOld(s, dcid, scid, pscid, es, k);
    }
    forall l | l in t.live ensures t.handlers[scid].rcid !in t.live[l] {
      if l != scid { assert l in s.live; }
    }
  }

  lemma CommitRoutesIt(s: Routing, dcid: Cid, scid: Cid, pscid: Cid, es: seq<CidEvent>)
    requires Inv(s) && Legal(s, Accept(dcid, scid, pscid, es, Committed))
    ensures var t := Next(s, Accept(dcid, scid, pscid, es, Committed));
      && scid in t.handlers && t.handlers[scid].rcid == dcid && Routed(t, scid)
      && dcid !in t.handlers && dcid !in t.live[scid] && forall l :: l in s.live ==> dcid !in s.live[l]
  {
    hide CtosAfter, LiveAfter, EverAfter, LegalEvents, Sound, Separate;
    var ever := s.ever + {dcid, scid, pscid};
    EventsKeep(s.ctos, scid, ever, FirstIds(scid, pscid), es);
    assert dcid !in CtosAfter(s.ctos, scid, es);
    NewIdsApart(s, dcid, scid, pscid, es);
    assert forall k :: k in s.handlers ==> k in Reserved(s.handlers[k], s.live[k]);
    hide Complete;
  }

  lemma CommitRoutesOld(s: Routing, dcid: Cid, scid: Cid, pscid: Cid, es: seq<CidEvent>, k: Cid)
    requires Inv(s) && Origins(s) && Legal(s, Accept(dcid, scid, pscid, es, Committed)) && k in s.handlers
    ensures var t := Next(s, Accept(dcid, scid, pscid, es, Committed)); var r := s.handlers[k].rcid;
      && k in t.handlers && t.handlers[k] == s.handlers[k] && k != scid
      && r !in t.handlers && r !in t.live[scid] && (Routed(t, k) <==> Routed(s, k))
  {
    hide CtosAfter, LiveAfter, EverAfter, LegalEvents, Sound, Separate, Complete;
    var t := Next(s, Accept(dcid, scid, pscid, es, Committed));
    var ever := s.ever + {dcid, scid, pscid};
    EventsKeep(s.ctos, scid, ever, FirstIds(scid, pscid), es);
    LiveKnown(s, k);
    var r := s.handlers[k].rcid;
    assert r in Reserved(s.handlers[k], s.live[k]) && k in Reserved(s.handlers[k], s.live[k]);
    assert r !in FirstIds(scid, pscid) && r !in t.live[scid];
    var c := CtosAfter(s.ctos, scid, es);
    assert r in s.ctos ==> r in c && c[r] == s.ctos[r];
    assert r !in s.ctos ==> r !in c;
  }

  lemma RunRoutes(s: Routing, scid: Cid, es: seq<CidEvent>)
    requires Inv(s) && Origins(s) && Legal(s, Run(scid, es, false))
    ensures StepRoutes(s, Run(scid, es, false))
  {
    hide CtosAfter, LiveAfter, EverAfter, LegalEvents, Sound, Separate, Complete;
    var t := Next(s, Run(scid, es, false));
    LiveKnown(s, scid);
    EventsKeep(s.ctos, scid, s.ever, s.live[scid], es);
    forall k | k in s.handlers
      ensures var r := s.handlers[k].rcid; r !in t.handlers && r !in t.live[scid]
      ensures Routed(t, k) <==> Routed(s, k)
    {
      LiveKnown(s, k);
      assert s.handlers[k].rcid in Reserved(s.handlers[k], s.live[k]);
    }
  }

  lemma RemovedRoutes(s: Routing, scid: Cid)
    requires Inv(s) && Origins(s) && scid in s.handlers
    ensures var t := Removed(s, scid);
      && Origins(t)
      && forall k :: k in t.handlers ==>
           (Routed(t, k) <==> Routed(s, k) && !Erases(s, Run(scid, [], true), k))
  {
    hide Sound, Separate, Complete, Known;
    var t := Removed(s, scid);
    forall k | k in t.handlers
      ensures Routed(t, k) <==> Routed(s, k) && !Erases(s, Run(scid, [], true), k)
    {
      assert s.handlers[k].rcid !in s.live[scid];
    }
  }

  lemma NextRoutes(s: Routing, a: Action)
    requires Inv(s) && Origins(s) && Legal(s, a) && Clean(a)
    ensures StepRoutes(s, a)
  {
    hide Inv, Legal, Origins, Resolve;
    match a {
      case Accept(dcid, scid, pscid, es, fate) =>
        match fate {
          case NotCreated =>
          case Dropped => DroppedRoutes(s, a);
          case Committed => CommitRoutes(s, dcid, scid, pscid, es);
        }
      case Run(scid, es, gone) =>
        RunLegal(s, scid, es, gone);
        RunRoutes(s, scid, es);
        if gone {
          NextInv(s, Run(scid, es, false));
          RemovedRoutes(Next(s, Run(scid, es, false)), scid);
        }
    }
  }

  lemma RunLegal(s: Routing, scid: Cid, es: seq<CidEvent>, gone: bool)
    requires Inv(s) && Legal(s, Run(scid, es, gone))
    ensures Legal(s, Run(scid, es, false)) && scid in s.handlers && scid in s.live
  {
    hide LegalEvents, Sound, Complete, Separate, Known;
  }

  lemma DroppedRoutes(s: Routing, a: Action)
    requires Inv(s) && Origins(s) && Legal(s, a) && a.Accept? && a.fate.Dropped? && Clean(a)
    ensures StepRoutes(s, a)
  {
    hide CtosAfter, LiveAfter, EverAfter, LegalEvents, Inv;
    DroppedEntries(s, a);
    assert Next(s, a).ctos == s.ctos;
  }

  /** In the course of `actions` the entry of the destination that opened `k` was
      erased together with another connection. */
  predicate Erased(actions: seq<Action>, k: Cid) {
    actions != []
    && (var p := actions[..|actions| - 1];
        Erased(p, k) || Erases(RunAll(Start(), p), actions[|actions| - 1], k))
  }

  /** In every reachable state the destination that a connection was opened with
      leads to it, if and only if its entry was not erased together with another
      connection since. */
  lemma {:induction false} ReachableOrigins(actions: seq<Action>)
    requires LegalRun(Start(), actions)
    ensures var s := RunAll(Start(), actions);
      && Inv(s) && Origins(s)
      && (forall k :: k in s.handlers ==> (Routed(s, k) <==> !Erased(actions, k)))
      && (forall k :: Erased(actions, k) ==> k in s.ever)
  {
    hide Inv, Legal, Next, Origins, Resolve, Clean;
    if actions == [] {
      StartInv();
      StartOrigins();
    } else {
      var n := |actions| - 1;
      ReachableOrigins(actions[..n]);
      var s, a := RunAll(Start(), actions[..n]), actions[n];
      NextInv(s, a);
      NextRoutes(s, a);
      NewKeys(s, a);
    }
  }

  /** The key of a new connection was never in use, and what was stays known. */
  lemma NewKeys(s: Routing, a: Action)
    requires Inv(s) && Legal(s, a)
    ensures forall k :: k in Next(s, a).handlers && k !in s.handlers ==> k !in s.ever
    ensures s.ever <= Next(s, a).ever
    ensures forall k :: k in s.handlers ==> k in s.ever
    ensures forall k :: k in Next(s, a).handlers && k in s.handlers ==> Next(s, a).handlers[k] == s.handlers[k]
  {
    hide CtosAfter, LiveAfter, LegalEvents, Sound, Complete, Separate, Resolve;
    EverGrows(s, a);
    assert forall k :: k in s.handlers ==> k in Reserved(s.handlers[k], s.live[k]);
  }

  lemma EverGrows(s: Routing, a: Action)
    ensures s.ever <= Next(s, a).ever
  {
    if a.Accept? { EverMore(s.ever + {a.dcid, a.scid, a.pscid}, a.events); } else { EverMore(s.ever, a.events); }
    hide CtosAfter, LiveAfter;
  }

  lemma {:induction false} EverMore(ever: set<Cid>, es: seq<CidEvent>)
    ensures ever <= EverAfter(ever, es)
  {
    if es != [] { EverMore(ever, es[..|es| - 1]); }
  }

  /** Clients choose destinations that have never been in use. */
  predicate FreshDestinations(actions: seq<Action>) {
    actions == []
    || (var p, a := actions[..|actions| - 1], actions[|actions| - 1];
        && FreshDestinations(p)
        && (a.Accept? && a.fate.Committed? ==> a.dcid !in RunAll(Start(), p).ever))
  }

  /** First destinations differ from each other, and from preferred-address IDs. */
  predicate OriginsApart(s: Routing) {
    forall k, l :: k in s.handlers && l in s.handlers && k != l ==>
      s.handlers[k].rcid != s.handlers[l].rcid && s.handlers[k].rcid != s.handlers[l].pscid
  }

  /** A handler is an old one, or that of a committed connection. */
  lemma NextHandlers(s: Routing, a: Action)
    ensures forall k :: k in Next(s, a).handlers ==>
              || (k in s.handlers && Next(s, a).handlers[k] == s.handlers[k])
              || (a.Accept? && a.fate.Committed? && Next(s, a).handlers[k] == Handler(a.scid, a.dcid, a.pscid)
                  && k == a.scid)
  {
    hide CtosAfter, LiveAfter, EverAfter;
  }

  lemma NextApart(s: Routing, a: Action)
    requires Inv(s) && OriginsApart(s) && Legal(s, a)
    requires a.Accept? && a.fate.Committed? ==> a.dcid !in s.ever
    requires forall k :: k in s.handlers ==> s.handlers[k].rcid != []
    ensures OriginsApart(Next(s, a))
    ensures forall k :: k in Next(s, a).handlers ==> Next(s, a).handlers[k].rcid != []
  {
    hide LegalEvents, Sound, Complete, Separate, Resolve, Next;
    NextHandlers(s, a);
    forall k | k in s.handlers ensures s.handlers[k].rcid in s.ever && s.handlers[k].pscid in s.ever {
      assert Reserved(s.handlers[k], s.live[k]) <= s.ever;
    }
  }

  /** Then they all lead to their connections, from the packet that opens a
      connection until it is removed. */
  lemma {:induction false} FreshOrigins(actions: seq<Action>)
    requires LegalRun(Start(), actions) && FreshDestinations(actions)
    ensures var s := RunAll(Start(), actions);
      && OriginsApart(s)
      && (forall k :: k in s.handlers ==> s.handlers[k].rcid != [] && Routed(s, k) && !Erased(actions, k))
  {
    hide Inv, Legal, Next, Origins, Resolve, Clean, Routed;
    ReachableOrigins(actions);
    if actions != [] {
      var n := |actions| - 1;
      FreshOrigins(actions[..n]);
      var s, a := RunAll(Start(), actions[..n]), actions[n];
      ReachableOrigins(actions[..n]);
      NextApart(s, a);
      NewKeys(s, a);
      NothingErased(s, a);
    }
  }

  lemma NothingErased(s: Routing, a: Action)
    requires Inv(s) && OriginsApart(s) && Legal(s, a)
    ensures forall k :: !Erases(s, a, k)
  {}

  /** A client that opens a connection with a preferred-address ID which another
      connection has retired: its destination is lost when that one is removed. */
  lemma ErasedOrigin()
    ensures LegalRun(Start(), ERASING) && Erased(ERASING, [3])
    ensures var s := RunAll(Start(), ERASING);
      [3] in s.handlers && s.handlers[[3]].rcid == [9] && Resolve(s, [9]).Unknown?
  {
    hide LegalRun, RunAll, Erased, Next, Legal, Resolve, Erases;
    RunNothing();
    RunMore([], ERASING[0]);
    RunMore(ERASING[..1], ERASING[1]);
    RunMore(ERASING[..2], ERASING[2]);
    RunMore(ERASING[..3], ERASING[3]);
    assert [] + [ERASING[0]] == ERASING[..1] && ERASING[..1] + [ERASING[1]] == ERASING[..2];
    assert ERASING[..2] + [ERASING[2]] == ERASING[..3] && ERASING[..3] + [ERASING[3]] == ERASING;
    ErasingStates();
  }

  const ERASING := [Accept([1], [2], [9], [], Committed), Run([2], [Retire([9])], false),
                    Accept([9], [3], [], [], Committed), Run([2], [], true)]

  lemma RunNothing()
    ensures RunAll(Start(), []) == Start() && LegalRun(Start(), [])
  {}

  lemma RunMore(p: seq<Action>, a: Action)
    ensures RunAll(Start(), p + [a]) == Next(RunAll(Start(), p), a)
    ensures LegalRun(Start(), p + [a]) <==> LegalRun(Start(), p) && Legal(RunAll(Start(), p), a) && Clean(a)
    ensures forall k :: Erased(p + [a], k) <==> Erased(p, k) || Erases(RunAll(Start(), p), a, k)
  {
    hide Next, Legal, Erases;
    assert (p + [a])[..|p|] == p;
  }

  lemma NoEvents(ctos: map<Cid, Cid>, owner: Cid, ever: set<Cid>, live: set<Cid>)
    ensures CtosAfter(ctos, owner, []) == ctos && LiveAfter(live, []) == live && EverAfter(ever, []) == ever
    ensures LegalEvents(ever, live, [])
  {}

  lemma OneRetired(ctos: map<Cid, Cid>, owner: Cid, ever: set<Cid>, live: set<Cid>, c: Cid)
    requires c in live
    ensures var es := [Retire(c)];
      && CtosAfter(ctos, owner, es) == ctos - {c} && LiveAfter(live, es) == live - {c} && EverAfter(ever, es) == ever
      && LegalEvents(ever, live, es)
  {
    assert [Retire(c)][..0] == [];
    NoEvents(ctos, owner, ever, live);
  }

  lemma ErasingStates()
    ensures var s1 := Next(Start(), ERASING[0]); var s2 := Next(s1, ERASING[1]);
      var s3 := Next(s2, ERASING[2]); var s4 := Next(s3, ERASING[3]);
      && Legal(Start(), ERASING[0]) && Legal(s1, ERASING[1]) && Legal(s2, ERASING[2]) && Legal(s3, ERASING[3])
      && (forall i :: 0 <= i < 4 ==> Clean(ERASING[i]))
      && Erases(s3, ERASING[3], [3])
      && [3] in s4.handlers && s4.handlers[[3]].rcid == [9] && Resolve(s4, [9]).Unknown?
  {
    hide CtosAfter, LiveAfter, EverAfter, LegalEvents;
    var none: Cid := [];
    var e1 := {[], [1], [2], [9]};
    NoEvents(map[], [2], Start().ever + {[1], [2], [9]}, FirstIds([2], [9]));
    var s1 := Next(Start(), ERASING[0]);
    assert Start().ever + {[1], [2], [9]} == e1 && FirstIds([2], [9]) == {[2], [9]};
    assert CtosAfter(map[], [2], []) == map[];
    assert s1.handlers == map[[2] := Handler([2], [1], [9])];
    assert s1.ctos == map[[1] := [2], [9] := [2]];
    assert s1.live == map[[2] := {[2], [9]}] && s1.ever == e1;
    OneRetired(s1.ctos, [2], s1.ever, {[2], [9]}, [9]);
    var s2 := Next(s1, ERASING[1]);
    assert s2 == Routing(s1.handlers, map[[1] := [2]], map[[2] := {[2]}], e1);
    NoEvents(s2.ctos, [3], s2.ever + {[9], [3], none}, FirstIds([3], none));
    var s3 := Next(s2, ERASING[2]);
    assert s3.ctos == map[[1] := [2], [9] := [3]];
    assert s3.handlers == map[[2] := Handler([2], [1], [9]), [3] := Handler([3], [9], none)];
    NoEvents(s3.ctos, [2], s3.ever, s3.live[[2]]);
  }

  /** The assertion fails after a handler that issued an ID is dropped. */
  lemma DroppedIdBreaksLookup()
    ensures var c: Cid, a := [3], Accept([1], [2], [], [Issue([3])], Dropped);
      Legal(Start(), a) && Resolve(Next(Start(), a), c).Broken?
  {
    var es := [Issue([3])];
    assert es[..|es| - 1] == [];
    var none: seq<CidEvent> := [];
    assert LegalEvents(Start().ever + {[1], [2], []}, FirstIds([2], []), none);
    assert CtosAfter(map[], [2], none) == map[];
    assert CtosAfter(map[], [2], es) == map[[3] := [2]];
  }
}
