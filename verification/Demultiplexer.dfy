/** The demultiplexer with its per-stream sockets. An `AsteriskStream` belongs to the
    reactor and a `DemuxAdapter` to the demultiplexer's map; each points at the other
    without owning it. `all` is the streams the reactor has, `adapters` every adapter ever
    made and `freed` the adapters freed, in order; using a freed adapter would break a
    precondition. */
module Demultiplexer {
  import opened SipFrame
  import opened DemuxSpec

  class DemuxAdapter {
    var stream: AsteriskStream?

    constructor (stream: AsteriskStream)
      ensures this.stream == stream
    {
      this.stream := stream;
    }

    /** By the time a failed write returns, this adapter may have been freed. */
    method SendBytes(demux: SipFrameDemux, wrote: bool) returns (ok: bool)
      requires demux.Valid() && demux.Live(this)
      modifies this, stream, demux
      ensures demux.Valid() && demux.SameObjects(old(demux.all), old(demux.adapters))
      ensures ok == wrote
      ensures demux.View() == AfterData(old(demux.View()), old(stream.id), wrote)
      ensures demux.recv == old(demux.recv)
    {
      if stream == null { return false; }
      ok := stream.WriteBytes(demux, wrote);
    }

    method Close(ghost demux: SipFrameDemux)
      requires demux.Live(this)
      modifies stream
      ensures stream != null ==> stream.adapter == null && stream.eofNotified && !stream.handle
    {
      if stream != null { stream.CloseSocket(); }
    }
  }

  class AsteriskStream {
    const id: uint32
    var handle: bool              // the socket is open
    var adapter: DemuxAdapter?
    var eofNotified: bool

    constructor (id: uint32)
      ensures this.id == id && handle && adapter == null && !eofNotified
    {
      this.id := id;
      handle, adapter, eofNotified := true, null, false;
    }

    /** Every release that starts on the Asterisk side goes through here; it frees the
        adapter, once. */
    method NotifyEofOnce(demux: SipFrameDemux, reason: string)
      requires demux.Valid() && this in demux.all
      modifies this, adapter, demux
      ensures demux.Valid() && demux.SameObjects(old(demux.all), old(demux.adapters))
      ensures eofNotified && adapter == null && handle == old(handle)
      ensures demux.View() == if old(eofNotified) then old(demux.View()) else AfterEof(old(demux.View()), id, reason)
      ensures demux.freed == if old(eofNotified) then old(demux.freed) else old(demux.freed) + [old(adapter)]
      ensures demux.recv == old(demux.recv)
    {
      hide SipFrameDemux.Balanced, AfterEof;
      if eofNotified { return; }
      assert demux.Apart(id);
      eofNotified := true;
      assert demux.Live(adapter);
      adapter.stream := null;
      adapter := null;
      demux.OnAsteriskEof(id, reason);
    }

    method WriteBytes(demux: SipFrameDemux, wrote: bool) returns (ok: bool)
      requires demux.Valid() && this in demux.all && adapter != null
      modifies this, adapter, demux
      ensures demux.Valid() && demux.SameObjects(old(demux.all), old(demux.adapters))
      ensures ok == wrote
      ensures demux.View() == AfterData(old(demux.View()), id, wrote)
      ensures demux.recv == old(demux.recv)
    {
      if !handle { return false; }
      if !wrote {
        NotifyEofOnce(demux, "asterisk_write_failed");
        return false;
      }
      return true;
    }

    /** Release that starts on the tunnel side; it does not call back. */
    method CloseSocket()
      modifies this
      ensures adapter == null && eofNotified && !handle
    {
      adapter := null;
      handle := false;
      eofNotified := true;
    }

    /** The socket became readable: it was closed, or brought these frames. False asks the
        reactor for HandleClose. */
    method HandleInput(demux: SipFrameDemux, closed: bool, frames: seq<Input>) returns (keep: bool)
      requires demux.Valid() && this in demux.all
      modifies this, adapter, demux
      ensures demux.Valid() && demux.SameObjects(old(demux.all), old(demux.adapters))
      ensures keep == (!closed && Keeps(old(eofNotified), frames))
      ensures demux.View() ==
        if !closed then AfterInputs(old(demux.View()), id, old(eofNotified), frames)
        else if old(eofNotified) then old(demux.View())
        else AfterEof(old(demux.View()), id, "peer_closed")
    {
      if closed {
        NotifyEofOnce(demux, "peer_closed");
        return false;
      }
      keep := DrainFrames(demux, frames);
    }

    /** Forwards payloads until the frames run out, the stream turns out to be released, or
        a frame ends it. */
    method DrainFrames(demux: SipFrameDemux, frames: seq<Input>) returns (keep: bool)
      requires demux.Valid() && this in demux.all
      modifies this, adapter, demux
      ensures demux.Valid() && demux.SameObjects(old(demux.all), old(demux.adapters))
      ensures demux.View() == AfterInputs(old(demux.View()), id, old(eofNotified), frames)
      ensures keep == Keeps(old(eofNotified), frames)
    {
      hide AfterReply, AfterEof;
      var i := 0;
      assert frames[0..] == frames;
      while i < |frames| && (frames[i].Payload? || frames[i].Control?)
        invariant 0 <= i <= |frames|
        invariant AfterInputs(old(demux.View()), id, old(eofNotified), frames)
               == AfterInputs(demux.View(), id, old(eofNotified), frames[i..])
        invariant Keeps(old(eofNotified), frames) == Keeps(old(eofNotified), frames[i..])
        modifies demux`sent
      {
        assert frames[i..][1..] == frames[i + 1..];
        if frames[i].Payload? {
          demux.OnAsteriskData(id, frames[i].bytes);
          if adapter == null { return false; }
        }
        i := i + 1;
      }
      if i == |frames| { return true; }
      NotifyEofOnce(demux, EofReason(frames[i]));
      return false;
    }

    /** The reactor lets go: raise EOF if nobody did, close, free this object. */
    method HandleClose(demux: SipFrameDemux)
      requires demux.Valid() && this in demux.all
      modifies this, adapter, demux
      ensures demux.Valid() && demux.all == old(demux.all) - {this} && demux.adapters == old(demux.adapters)
      ensures demux.View() ==
        if old(eofNotified) then old(demux.View()) else AfterEof(old(demux.View()), id, "handle_close")
    {
      hide AfterEof, SipFrameDemux.Valid;
      NotifyEofOnce(demux, "handle_close");
      LetGo(demux);
    }

    method LetGo(demux: SipFrameDemux)
      requires demux.Valid() && adapter == null
      modifies this`handle, demux`all
      ensures demux.Valid() && demux.all == old(demux.all) - {this} && !handle
    {
      hide SipFrameDemux.Balanced;
      handle := false;
      demux.all := demux.all - {this};
    }
  }

  class SipFrameDemux {
    var tunnel: bool
    var streams: map<uint32, DemuxAdapter>
    var recv: Bytes
    var sent: seq<Frame>
    ghost var all: set<AsteriskStream>
    ghost var adapters: set<DemuxAdapter>
    ghost var freed: seq<DemuxAdapter>

    function View(): Outside reads this`streams, this`tunnel, this`sent {
      Outside(streams.Keys, tunnel, sent)
    }

    ghost predicate SameObjects(a: set<AsteriskStream>, b: set<DemuxAdapter>) reads this {
      all == a && adapters == b
    }

    /** A stream holds an adapter exactly while EOF has not been raised; then its
        socket is open and the map stores that adapter under its id. Conversely every
        stored adapter points back at such a stream. */
    ghost predicate Valid() reads this`streams, this`all, this`adapters, this`freed, all, adapters {
      && Balanced()
      && (forall s :: s in all ==> (s.adapter == null <==> s.eofNotified))
      && (forall s :: s in all && s.adapter != null ==> Holds(s, s.adapter))
      && (forall id :: id in streams ==> Stored(id, streams[id]))
    }

    /** Every adapter ever made is stored or was freed, and none was freed twice. */
    ghost predicate Balanced() reads this`streams, this`adapters, this`freed {
      multiset(adapters) == multiset(freed) + multiset(streams.Values)
    }

    /** The adapter is stored, hence not freed. */
    ghost predicate Live(a: DemuxAdapter) reads this`streams {
      a in streams.Values
    }

    /** No other stream shares the adapter of `id`. */
    ghost predicate Apart(id: uint32) reads this`streams {
      id in streams ==> forall other :: other in streams && other != id ==> streams[other] != streams[id]
    }

    ghost predicate Holds(s: AsteriskStream, a: DemuxAdapter) reads this`streams, this`adapters, s, adapters {
      && s.handle
      && a in adapters && a.stream == s
      && s.id in streams && streams[s.id] == a
    }

    ghost predicate Stored(id: uint32, a: DemuxAdapter) reads this`all, this`adapters, all, adapters {
      && a in adapters
      && a.stream != null && a.stream in all && a.stream.adapter == a && a.stream.id == id
    }

    constructor ()
      ensures Valid() && View() == Outside({}, true, []) && recv == [] && all == {} && adapters == {} && freed == []
    {
      tunnel, streams, recv, sent := true, map[], [], [];
      all, adapters, freed := {}, {}, [];
    }

    method EmitFrame(f: Frame)
      modifies this`sent
      ensures View() == Emit(old(View()), f)
    {
      if tunnel { sent := sent + [f]; }
    }

    method OnAsteriskData(id: uint32, bytes: Bytes)
      modifies this`sent
      ensures View() == AfterReply(old(View()), id, bytes)
    {
      if id !in streams { return; }
      EmitFrame(Frame(DATA, id, bytes));
    }

    /** Erasing the map entry frees the adapter stored in it. */
    method Erase(id: uint32)
      requires id in streams && Balanced() && Apart(id)
      modifies this`streams, this`freed
      ensures streams == old(streams) - {id} && Balanced()
      ensures freed == old(freed) + [old(streams)[id]]
    {
      FreeOne(streams, freed, adapters, id);
      freed := freed + [streams[id]];
      streams := streams - {id};
    }

    method OnAsteriskEof(id: uint32, reason: string)
      requires Balanced() && Apart(id)
      modifies this`streams, this`sent, this`freed
      ensures streams == old(streams) - {id} && Balanced() && View() == AfterEof(old(View()), id, reason)
      ensures freed == if id in old(streams) then old(freed) + [old(streams)[id]] else old(freed)
    {
      if id !in streams { return; }
      Erase(id);
      EmitFrame(Frame(CLOSE, id, Ascii(reason)));
    }

    method CloseStream(id: uint32)
      requires Valid()
      modifies this, all, adapters
      ensures Valid() && SameObjects(old(all), old(adapters))
      ensures View() == AfterClose(old(View()), id) && recv == old(recv)
      ensures freed == if id in old(streams) then old(freed) + [old(streams)[id]] else old(freed)
    {
      hide Balanced;
      if id !in streams { return; }
      assert Apart(id);
      var a := streams[id];
      a.Close(this);
      Erase(id);
    }

    method Open(id: uint32, dialed: bool)
      requires Valid()
      modifies this
      ensures Valid() && fresh(all - old(all)) && fresh(adapters - old(adapters))
      ensures View() == AfterOpen(old(View()), id, dialed) && recv == old(recv)
    {
      hide Valid, Ascii;
      if id in streams { return; }
      if !dialed {
        EmitFrame(Frame(CLOSE, id, Ascii("asterisk_unreachable")));
        return;
      }
      var s, a := MakeAdapter(id);
      Install(s, a);
    }

    method MakeAdapter(id: uint32) returns (s: AsteriskStream, a: DemuxAdapter)
      ensures fresh(s) && fresh(a) && s.id == id && s.handle && !s.eofNotified && s.adapter == a && a.stream == s
    {
      s := new AsteriskStream(id);
      a := new DemuxAdapter(s);
      s.adapter := a;
    }

    /** The socket belongs to the reactor from now on, the adapter to the map. */
    method Install(s: AsteriskStream, a: DemuxAdapter)
      requires Valid() && s !in all && a !in adapters && s.id !in streams
      requires s.handle && !s.eofNotified && s.adapter == a && a.stream == s
      modifies this`streams, this`all, this`adapters
      ensures Valid() && all == old(all) + {s} && adapters == old(adapters) + {a}
      ensures streams == old(streams)[s.id := a] && freed == old(freed)
    {
      MakeOne(streams, freed, adapters, s.id, a);
      hide Balanced;
      all, adapters := all + {s}, adapters + {a};
      streams := streams[s.id := a];
    }

    method DispatchFrame(f: Frame, fate: Fate)
      requires Valid()
      modifies this, all, adapters
      ensures Valid() && fresh(all - old(all)) && fresh(adapters - old(adapters))
      ensures View() == AfterFrame(old(View()), f, fate) && recv == old(recv)
    {
      hide Ascii;
      match f.op
      case OPEN => Open(f.stream, fate.dialed);
      case DATA =>
        if f.stream in streams {
          var ok := streams[f.stream].SendBytes(this, fate.wrote);
          if !ok { CloseStream(f.stream); }
        }
      case CLOSE => CloseStream(f.stream);
      case PING => EmitFrame(Frame(PONG, f.stream, []));
      case _ =>
    }

    /** Decodes and dispatches as many frames as have arrived. `fates` says how the
        local side reacts to each of them. */
    method OnTunnelBytes(bytes: Bytes, fates: seq<Fate>) returns (ok: bool)
      requires Valid()
      modifies this, all, adapters
      ensures Valid() && fresh(all - old(all)) && fresh(adapters - old(adapters))
      ensures var p := Parse(old(recv) + bytes);
        && ok == p.ok && recv == p.rest
        && View() == AfterFrames(old(View()), p.frames, fates)
    {
      hide Decode, AfterFrame, Valid, View, Parse, AfterFrames;
      recv := recv + bytes;
      ghost var whole := Parse(recv);
      ghost var done: seq<Frame> := [];
      var count := 0;
      NoFrames(View(), fates);
      while true
        invariant Valid() && fresh(all - old(all)) && fresh(adapters - old(adapters))
        invariant whole == Parsed(done + Parse(recv).frames, Parse(recv).rest, Parse(recv).ok)
        invariant count == |done| && View() == AfterFrames(old(View()), done, fates)
        decreases |recv|
      {
        var r := Decode(recv);
        if !r.Ok? { ParseStops(recv, done); }
        if r.NeedMore? { return true; }
        if r.Invalid? {
          recv := [];
          return false;
        }
        ParseStep(recv, done);
        MoreFrames(old(View()), done, r.frame, fates);
        DispatchFrame(r.frame, FateAt(fates, count));
        recv := recv[r.consumed..];
        done, count := done + [r.frame], count + 1;
      }
    }

    method SetTunnel()
      modifies this`tunnel, this`recv
      ensures View() == old(View()).(tunnel := true) && recv == []
    {
      tunnel, recv := true, [];
    }

    method OnTunnelDisconnect()
      requires Valid()
      modifies this, all, adapters
      ensures Valid() && SameObjects(old(all), old(adapters))
      ensures View() == AfterDisconnect(old(View())) && recv == []
      ensures multiset(freed) == multiset(adapters)
    {
      var todo := streams;
      while todo != map[]
        invariant Valid() && SameObjects(old(all), old(adapters))
        invariant todo == streams && tunnel == old(tunnel) && sent == old(sent)
        decreases todo.Keys
      {
        var id :| id in todo;
        CloseStream(id);
        todo := streams;
      }
      recv := [];
      tunnel := false;
    }
  }

  lemma NoFrames(v: Outside, fates: seq<Fate>)
    ensures AfterFrames(v, [], fates) == v
  {
  }

  lemma MoreFrames(v: Outside, done: seq<Frame>, f: Frame, fates: seq<Fate>)
    ensures AfterFrames(v, done + [f], fates) == AfterFrame(AfterFrames(v, done, fates), f, FateAt(fates, |done|))
  {
    hide AfterFrame;
    assert (done + [f])[..|done|] == done;
  }

  lemma ParseStops(buf: Bytes, done: seq<Frame>)
    requires !Decode(buf).Ok?
    ensures Parse(buf) == if Decode(buf).NeedMore? then Parsed([], buf, true) else Parsed([], [], false)
    ensures done + Parse(buf).frames == done
  {
    hide Decode;
  }

  /** One step of decoding, with the frames decoded before. */
  lemma ParseStep(buf: Bytes, done: seq<Frame>)
    requires Decode(buf).Ok?
    ensures var r := Decode(buf); var p := Parse(buf[r.consumed..]);
      Parse(buf).ok == p.ok && Parse(buf).rest == p.rest && done + Parse(buf).frames == done + [r.frame] + p.frames
  {
    hide Decode;
    var r := Decode(buf);
    var p := Parse(buf[r.consumed..]);
    assert Parse(buf) == Parsed([r.frame] + p.frames, p.rest, p.ok);
    hide Parse;
    assert done + ([r.frame] + p.frames) == done + [r.frame] + p.frames;
  }

  lemma ErasedValues<K, V>(m: map<K, V>, k: K)
    requires k in m && forall other :: other in m && other != k ==> m[other] != m[k]
    ensures (m - {k}).Values == m.Values - {m[k]}
  {
    forall v | v in m.Values && v != m[k]
      ensures v in (m - {k}).Values
    {
      var other :| other in m && m[other] == v;
      assert other in m - {k} && (m - {k})[other] == v;
    }
    forall v | v in (m - {k}).Values
      ensures v in m.Values && v != m[k]
    {
      var other :| other in m - {k} && (m - {k})[other] == v;
      assert other in m && m[other] == v;
    }
  }

  lemma AddedValues<K, V>(m: map<K, V>, k: K, v: V)
    requires k !in m
    ensures m[k := v].Values == m.Values + {v}
  {
    assert m[k := v][k] == v;
    forall w | w in m.Values
      ensures w in m[k := v].Values
    {
      var other :| other in m && m[other] == w;
      assert m[k := v][other] == w;
    }
  }

  lemma FreeOne<K, V>(m: map<K, V>, freed: seq<V>, made: set<V>, k: K)
    requires multiset(made) == multiset(freed) + multiset(m.Values) && k in m
    requires forall other :: other in m && other != k ==> m[other] != m[k]
    ensures multiset(made) == multiset(freed + [m[k]]) + multiset((m - {k}).Values)
  {
    ErasedValues(m, k);
    assert m[k] in m.Values;
    assert multiset(m.Values) == multiset(m.Values - {m[k]}) + multiset{m[k]};
  }

  lemma MakeOne<K, V>(m: map<K, V>, freed: seq<V>, made: set<V>, k: K, v: V)
    requires multiset(made) == multiset(freed) + multiset(m.Values) && k !in m && v !in made
    ensures multiset(made + {v}) == multiset(freed) + multiset(m[k := v].Values)
  {
    AddedValues(m, k, v);
    assert v !in multiset(made);
    assert v !in m.Values;
    assert multiset(made + {v}) == multiset(made) + multiset{v};
    assert multiset(m.Values + {v}) == multiset(m.Values) + multiset{v};
  }
}
