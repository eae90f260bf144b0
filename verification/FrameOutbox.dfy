/** The outbox that carries frames from worker threads to the reactor, which alone may
    call the dialer. */
module FrameOutbox {
  import opened SipFrame
  import opened TunnelDialer
  import ConnectorRuns

  /** `queue` is guarded by the lock; `batch` is what the reactor swapped out and is
      still sending. `posted` and `sent` are the history. */
  datatype Outbox = Outbox(queue: seq<Frame>, batch: seq<Frame>, posted: seq<Frame>, sent: seq<Frame>)

  class ReactorFrameOutbox {
    const connector: CloudConnector
    var pending: seq<Frame>

    constructor (connector: CloudConnector)
      ensures this.connector == connector && pending == []
    {
      this.connector := connector;
      pending := [];
    }

    method Post(f: Frame)
      modifies this
      ensures pending == old(pending) + [f]
    {
      pending := pending + [f];
    }

    /** Runs on the reactor; `results` are the transport's answers in order, a missing
        one meaning that it refused. */
    method HandleException(results: seq<SendResult>)
      modifies this, connector
      ensures pending == []
      ensures connector.State() == AfterSends(connector.cfg, old(connector.State()), old(pending), results)
    {
      var drained := pending;
      pending := [];
      connector.SendFrames(drained, results);
    }
  }

  // ---- interleavings ------------------------------------------------------

  /** Producers post at any time, also while the reactor is working off a batch; the
      dialer does everything else it does in between. */
  datatype Event =
    | Post(frame: Frame)
    | Swap
    | SendNext(r: SendResult)
    | Elsewhere(e: ConnectorRuns.Event)

  datatype World = World(box: Outbox, net: ConnectorRuns.World)

  predicate Enabled(w: World, e: Event) {
    match e
    case Swap => w.box.batch == []
    case SendNext(_) => w.box.batch != []
    case _ => true
  }

  function Step(cfg: Config, w: World, e: Event): World
    requires Enabled(w, e)
  {
    match e
    case Post(f) => w.(box := w.box.(queue := w.box.queue + [f], posted := w.box.posted + [f]))
    case Swap => w.(box := w.box.(queue := [], batch := w.box.queue))
    case SendNext(r) =>
      var f := w.box.batch[0];
      World(w.box.(batch := w.box.batch[1..], sent := w.box.sent + [f]),
            ConnectorRuns.Step(cfg, w.net, ConnectorRuns.Submit(f, r)))
    case Elsewhere(x) => w.(net := ConnectorRuns.Step(cfg, w.net, x))
  }

  const START := World(Outbox([], [], [], []), ConnectorRuns.World(TunnelDialer.START, [], 0, 0, 0, 0, 0))

  predicate Legal(cfg: Config, w: World, run: seq<Event>)
    decreases |run|
  {
    run == [] || (Enabled(w, run[0]) && Legal(cfg, Step(cfg, w, run[0]), run[1..]))
  }

  function Exec(cfg: Config, w: World, run: seq<Event>): World
    requires Legal(cfg, w, run)
    decreases |run|
  {
    if run == [] then w else Exec(cfg, Step(cfg, w, run[0]), run[1..])
  }

  /** Posted frames are, in order, those sent, those in hand and those queued; and what
      was sent reached the dialer in that order. */
  ghost predicate InOrder(cfg: Config, w: World) {
    && w.box.posted == w.box.sent + w.box.batch + w.box.queue
    && ConnectorRuns.Subsequence(ConnectorRuns.Encoded(w.box.sent), w.net.submitted)
    && ConnectorRuns.HandOff(cfg, w.net.d, w.net.submitted)
  }

  lemma InOrderStep(cfg: Config, w: World, e: Event)
    requires InOrder(cfg, w) && Enabled(w, e)
    ensures InOrder(cfg, Step(cfg, w, e))
  {
    hide ConnectorRuns.Subsequence, ConnectorRuns.HandOff, ConnectorRuns.Submits, ConnectorRuns.After, Encode;
    match e
    case Post(_) =>
    case Swap =>
    case SendNext(r) =>
      var f := w.box.batch[0];
      SubmitsOne(cfg, w.net.d, f, r);
      ConnectorRuns.HandOffStep(cfg, w.net.d, w.net.submitted, ConnectorRuns.Submit(f, r));
      ConnectorRuns.SubsequenceSnoc(ConnectorRuns.Encoded(w.box.sent), w.net.submitted, Encode(f));
      assert ConnectorRuns.Encoded(w.box.sent + [f]) == ConnectorRuns.Encoded(w.box.sent) + [Encode(f)];
      assert w.box.batch == [f] + w.box.batch[1..];
    case Elsewhere(x) =>
      ConnectorRuns.HandOffStep(cfg, w.net.d, w.net.submitted, x);
      ConnectorRuns.SubsequenceAppend(ConnectorRuns.Encoded(w.box.sent), w.net.submitted, ConnectorRuns.Submits(cfg, w.net.d, x));
  }

  lemma SubmitsOne(cfg: Config, d: Dialer, f: Frame, r: SendResult)
    ensures ConnectorRuns.Submits(cfg, d, ConnectorRuns.Submit(f, r)) == [Encode(f)]
  {
  }

  lemma {:induction false} InOrderFrom(cfg: Config, w: World, run: seq<Event>)
    requires Legal(cfg, w, run) && InOrder(cfg, w)
    ensures InOrder(cfg, Exec(cfg, w, run))
    decreases |run|
  {
    hide Step, InOrder;
    if run != [] {
      InOrderStep(cfg, w, run[0]);
      InOrderFrom(cfg, Step(cfg, w, run[0]), run[1..]);
    }
  }

  /** No posted frame is lost or overtaken, whatever the interleaving; with an unbounded
      buffer the frames sent from here are, in post order, among those that transports
      took or that wait for the next one. */
  lemma PostOrderKept(cfg: Config, run: seq<Event>)
    requires Legal(cfg, START, run)
    ensures var w := Exec(cfg, START, run);
      && w.box.posted == w.box.sent + w.box.batch + w.box.queue
      && (cfg.bufferMax == 0 ==> ConnectorRuns.Subsequence(ConnectorRuns.Encoded(w.box.sent), w.net.d.wire + w.net.d.outbound))
  {
    assert InOrder(cfg, START) by {
      assert ConnectorRuns.Encoded([]) == [];
      ConnectorRuns.EmptySubsequence();
      assert TunnelDialer.START.wire + TunnelDialer.START.outbound == [];
    }
    hide Legal, Exec;
    InOrderFrom(cfg, START, run);
  }
}
