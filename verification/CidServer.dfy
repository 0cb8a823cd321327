/** The connection-ID code of `Server`, as it updates its two maps in place. */
module CidServer {
  import opened CidRouting

  /** What one received packet does: it opens a connection, or runs one. */
  function PacketAction(s: Routing, dcid: Cid, scid: Cid, pscid: Cid, es: seq<CidEvent>, fate: Fate,
                        gone: bool): Action {
    match Resolve(s, dcid)
    case Found(k) => Run(k, es, gone)
    case _ => Accept(dcid, scid, pscid, es, fate)
  }

  class Server {
    var handlers: map<Cid, Handler>
    var ctos: map<Cid, Cid>
    /** The QUIC library's list of IDs of each connection. */
    var live: map<Cid, set<Cid>>
    ghost var ever: set<Cid>

    ghost function State(): Routing
      reads this
    {
      Routing(handlers, ctos, live, ever)
    }

    constructor ()
      ensures State() == Start() && Inv(State()) && Origins(State())
    {
      handlers, ctos, live, ever := map[], map[], map[], {[]};
    }

    /** `Server::associate_cid` */
    method AssociateCid(cid: Cid, scid: Cid)
      modifies `ctos
      ensures ctos == Emplace(old(ctos), cid, scid)
    {
      if cid !in ctos { ctos := ctos[cid := scid]; }
    }

    /** `Server::dissociate_cid` */
    method DissociateCid(cid: Cid)
      modifies `ctos
      ensures ctos == old(ctos) - {cid}
    {
      ctos := ctos - {cid};
    }

    /** The callbacks `get_new_connection_id` and `remove_connection_id` while a
        connection runs. */
    method Callbacks(scid: Cid, es: seq<CidEvent>)
      modifies `ctos
      ensures ctos == CtosAfter(old(ctos), scid, es)
    {
      var i := 0;
      assert es[..0] == [];
      while i < |es|
        invariant 0 <= i <= |es|
        invariant ctos == CtosAfter(old(ctos), scid, es[..i])
      {
        assert es[..i + 1][..i] == es[..i];
        match es[i] {
          case Issue(cid) => AssociateCid(cid, scid);
          case Retire(cid) => DissociateCid(cid);
        }
        i := i + 1;
      }
      assert es[..|es|] == es;
    }

    /** `Server::remove` */
    method Remove(scid: Cid)
      requires Inv(State()) && Origins(State()) && scid in handlers
      modifies this
      ensures State() == Removed(old(State()), scid)
      ensures Inv(State()) && Origins(State()) && forall d :: Resolve(State(), d) != Found(scid)
    {
      hide Sound, Complete, Separate, Known, Resolve, Origins;
      RemovedIsGone(State(), scid);
      RemovedRoutes(State(), scid);
      var h := handlers[scid];
      ctos := ctos - {h.rcid};
      ctos := ctos - {h.pscid};
      var cids := live[scid];
      while cids != {}
        invariant handlers == old(handlers) && live == old(live) && ever == old(ever)
        invariant cids <= live[scid]
        invariant ctos == old(ctos) - ({h.rcid, h.pscid} + (live[scid] - cids))
        decreases |cids|
      {
        var cid :| cid in cids;
        ctos := ctos - {cid};
        cids := cids - {cid};
      }
      assert Keys(h, live[scid]) == {h.rcid, h.pscid} + (live[scid] - cids);
      handlers := handlers - {h.scid};
      live := live - {scid};
    }

    /** One packet in `Server::on_read`, from the lookup on. The library makes the
        callbacks `es`; a new handler has the IDs `scid` and `pscid`. */
    method OnRead(dcid: Cid, scid: Cid, pscid: Cid, es: seq<CidEvent>, fate: Fate, gone: bool)
      requires Inv(State()) && Origins(State())
      requires var a := PacketAction(State(), dcid, scid, pscid, es, fate, gone); Legal(State(), a) && Clean(a)
      modifies this
      ensures State() == Next(old(State()), PacketAction(old(State()), dcid, scid, pscid, es, fate, gone))
      ensures Inv(State()) && Origins(State())
      // further packets for the destination go to the connection that this one opened
      ensures old(Resolve(State(), dcid)).Unknown? && fate.Committed? ==> Resolve(State(), dcid) == Found(scid)
      // and those of the others stay as they are, but for what is erased with a connection
      ensures StepRoutes(old(State()), PacketAction(old(State()), dcid, scid, pscid, es, fate, gone))
    {
      hide Sound, Complete, Separate, Known, Legal, Origins, StepRoutes;
      NextInv(State(), PacketAction(State(), dcid, scid, pscid, es, fate, gone));
      PacketRoutes(State(), dcid, scid, pscid, es, fate, gone);
      var key := dcid;
      if dcid !in handlers {
        if dcid !in ctos {
          Open(dcid, scid, pscid, es, fate);
          return;
        }
        key := ctos[dcid];
        InvRoutes(State());
        assert !Resolve(State(), dcid).Broken?;
        assert key in handlers;
      }
      RunHandler(key, es, gone);
    }

    /** A packet with an unknown destination. */
    method Open(dcid: Cid, scid: Cid, pscid: Cid, es: seq<CidEvent>, fate: Fate)
      modifies this
      ensures State() == Next(old(State()), Accept(dcid, scid, pscid, es, fate))
    {
      if fate.NotCreated? { return; }
      ever := EverAfter(ever + {dcid, scid, pscid}, es);
      Callbacks(scid, es);
      if fate.Dropped? { return; }
      if dcid !in ctos { ctos := ctos[dcid := scid]; }
      if pscid != [] {
        if pscid !in ctos { ctos := ctos[pscid := scid]; }
      }
      if scid !in handlers { handlers := handlers[scid := Handler(scid, dcid, pscid)]; }
      live := live[scid := LiveAfter(FirstIds(scid, pscid), es)];
    }

    /** A connection runs: on a packet, when it can write, or when a timer fires. */
    method RunHandler(scid: Cid, es: seq<CidEvent>, gone: bool)
      requires Inv(State()) && Origins(State()) && Legal(State(), Run(scid, es, gone))
      modifies this
      ensures State() == Next(old(State()), Run(scid, es, gone))
      ensures Inv(State()) && Origins(State())
    {
      hide Sound, Complete, Separate, Known, LegalEvents, Resolve, Origins;
      RunKeeps(State(), scid, es);
      assert Origins(Next(State(), Run(scid, es, false))) by { RunRoutes(State(), scid, es); }
      ever := EverAfter(ever, es);
      Callbacks(scid, es);
      live := live[scid := LiveAfter(live[scid], es)];
      if gone { Remove(scid); }
    }

    /** The loop of `Server::disconnect`. */
    method Disconnect()
      requires Inv(State()) && Origins(State())
      modifies this
      ensures Inv(State()) && Origins(State()) && handlers == map[] && ctos == map[]
    {
      hide Sound, Complete, Separate, Known, Origins;
      while handlers != map[]
        invariant Inv(State()) && Origins(State())
        decreases |handlers|
      {
        var k :| k in handlers;
        ghost var before := handlers;
        Remove(handlers[k].scid);
        assert handlers == before - {k};
        Fewer(before, k);
      }
      NoEntries(State());
    }
  }

  /** What the packet that opens a connection does for those that follow it. */
  lemma PacketRoutes(s: Routing, dcid: Cid, scid: Cid, pscid: Cid, es: seq<CidEvent>, fate: Fate, gone: bool)
    requires Inv(s) && Origins(s)
    requires var a := PacketAction(s, dcid, scid, pscid, es, fate, gone); Legal(s, a) && Clean(a)
    ensures var t := Next(s, PacketAction(s, dcid, scid, pscid, es, fate, gone));
      && StepRoutes(s, PacketAction(s, dcid, scid, pscid, es, fate, gone)) && Origins(t)
      && (Resolve(s, dcid).Unknown? && fate.Committed? ==> Resolve(t, dcid) == Found(scid))
  {
    hide Sound, Complete, Separate, Known, Origins, Next, LegalEvents;
    NextRoutes(s, PacketAction(s, dcid, scid, pscid, es, fate, gone));
    if Resolve(s, dcid).Unknown? && fate.Committed? { CommitRoutesIt(s, dcid, scid, pscid, es); }
  }

  lemma Fewer(m: map<Cid, Handler>, k: Cid)
    requires k in m
    ensures |m - {k}| < |m|
  {
    assert (m - {k}).Keys == m.Keys - {k};
  }

  lemma NoEntries(s: Routing)
    requires Inv(s) && s.handlers == map[]
    ensures s.ctos == map[]
  {}
}
