/** The link control state machine as functions of the handle's state: what one
    run of the work handler does to the handle and which collaborator calls it
    makes. The imperative handle in module Ipc is proved to follow these
    functions; the properties of the state machine are proved here. */
module Control {
  import opened Mailbox
  import opened Shmem
  import opened Interfaces

  /** The part of the handle the state machine reads and writes. The link state
      is not stored as such: it is the last accepted command together with the
      `configured` flag. */
  datatype State = State(
    configured: bool,
    oldStatus: bv32,
    layout: Layout,
    chans: seq<Channel>,
    conf: Option<Config>)

  /** A zero-filled handle with `n` channel entries. */
  function Initial(n: nat): (s: State)
    ensures !s.configured && |s.chans| == n
  {
    State(false, 0, ZeroLayout, seq(n, _ => ZeroChannel), None)
  }

  /** The new state of one step and the collaborator calls it made, in order. */
  datatype Outcome = Outcome(next: State, calls: seq<Event>)

  /** The branches of the command switch. */
  datatype Kind = Ready | BootFwRequest | BootError | ProtocolViolation | Unknown

  /** Which branch of the switch a command takes. */
  function Classify(codes: Codes, cmd: bv32): (k: Kind)
    requires codes.Distinct()
    ensures k == Ready <==> cmd == codes.ready
    ensures k == BootFwRequest <==> cmd == codes.bootFwReq || cmd == codes.bootRestartFwReq
    ensures k == BootError <==> cmd in codes.bootErrors
    ensures k == ProtocolViolation <==> cmd == codes.coldBootInd || cmd == codes.fwConf
  {
    assert codes.Singles()[0] == codes.ready && codes.Singles()[1] == codes.bootFwReq;
    assert codes.Singles()[2] == codes.bootRestartFwReq;
    assert codes.Singles()[3] == codes.coldBootInd && codes.Singles()[4] == codes.fwConf;
    if cmd == codes.ready then Ready
    else if cmd == codes.bootFwReq || cmd == codes.bootRestartFwReq then BootFwRequest
    else if cmd in codes.bootErrors then BootError
    else if cmd == codes.coldBootInd || cmd == codes.fwConf then ProtocolViolation
    else Unknown
  }

  /** The channel table copied from a map: entry `i` has index `i`. */
  function CopyChannels(m: seq<ChanMap>): (chans: seq<Channel>)
    ensures |chans| == |m|
    ensures forall i :: 0 <= i < |m| ==> chans[i].index == i && chans[i].entry == m[i]
  {
    seq(|m|, i requires 0 <= i < |m| => Channel(i, m[i]))
  }

  /** The handle after the config reader has read `c` for an IPC region at `base`.
      A config of another version leaves the handle as it was. */
  function ConfigRead(p: Platform, base: int, s: State, c: Config): (r: State)
    ensures r.oldStatus == s.oldStatus
    ensures r.configured <==> s.configured || c.version == p.configVersion
    ensures c.version != p.configVersion ==> r == s
    ensures c.version == p.configVersion ==> r.chans == CopyChannels(c.chanMap) && r.conf == Some(c)
  {
    if c.version != p.configVersion then s
    else s.(configured := true, layout := ConfigLayout(base, c),
            chans := CopyChannels(c.chanMap), conf := Some(c))
  }

  /** The config reader either leaves the handle unchanged (wrong version) or
      configures it from the block: regions and queue ends at the offsets the
      block gives, and channel `i` a copy of map entry `i` with index `i`. The
      size the block reports plays no part. */
  lemma ConfigReadOutcome(p: Platform, base: int, s: State, c: Config)
    ensures var r := ConfigRead(p, base, s, c);
      && (c.version != p.configVersion ==> r == s)
      && (c.version == p.configVersion ==>
            && r.configured && r.oldStatus == s.oldStatus && r.conf == Some(c)
            && r.layout.descBase == base + c.regionApDescOffset
            && r.layout.descSize == c.regionApDescSize
            && r.layout.dataBase == base + c.regionApDataOffset
            && r.layout.dataSize == c.regionApDataSize
            && r.layout.queueHead == base + c.queueBbOffset
            && r.layout.queueTail == base + c.queueApOffset
            && |r.chans| == |c.chanMap|
            && (forall i :: 0 <= i < |c.chanMap| ==>
                  r.chans[i].index == i && r.chans[i].entry == c.chanMap[i]))
  {
  }

  /** Defensive teardown: if the link is configured, abort the shared queue,
      then clean up the interfaces, which clears `configured`. */
  function TeardownOutcome(s: State): (o: Outcome)
    ensures o.next == s.(configured := false)
    ensures o.calls != [] <==> s.configured
    ensures s.configured ==> o.calls[0] == AbortQueue
  {
    if s.configured then Outcome(s.(configured := false), [AbortQueue] + CleanupCalls(s.chans))
    else Outcome(s, [])
  }

  /** Fresh negotiation: read the config (its failure is ignored), then build
      the buffer pool and the shared queue on whatever layout the handle then
      holds, then start the interfaces of its channel table. */
  function NegotiationOutcome(p: Platform, base: int, s: State, c: Config): (o: Outcome)
    ensures o.next == ConfigRead(p, base, s, c)
    ensures |o.calls| >= 2 && o.calls[0] == IobufInit(o.next.layout) && o.calls[1] == InitQueue(o.next.layout)
    ensures forall e :: e in o.calls ==> e.IsNegotiation()
  {
    var r := ConfigRead(p, base, s, c);
    Outcome(r, [IobufInit(r.layout), InitQueue(r.layout)] + InitCalls(r.chans))
  }

  /** The command switch of the work handler, for a command that passed the
      integrity check, before the last status is updated. */
  function Dispatch(p: Platform, base: int, s: State, cmd: bv32, c: Config): (o: Outcome)
    requires p.Valid()
    ensures o.next.oldStatus == s.oldStatus
    ensures ProcessQueue in o.calls <==> cmd == p.codes.ready && cmd == s.oldStatus
    ensures AbortQueue in o.calls <==>
      (cmd == p.codes.bootFwReq || cmd == p.codes.bootRestartFwReq) && s.configured
    ensures (exists e :: e in o.calls && e.IsNegotiation()) <==> cmd == p.codes.ready && cmd != s.oldStatus
    ensures cmd != p.codes.ready && cmd != p.codes.bootFwReq && cmd != p.codes.bootRestartFwReq ==>
      o == Outcome(s, [])
  {
    match Classify(p.codes, cmd)
    case Ready =>
      if cmd == s.oldStatus then Outcome(s, [ProcessQueue])
      else
        var n := NegotiationOutcome(p, base, s, c);
        assert n.calls[0] in n.calls;
        n
    case BootFwRequest => TeardownOutcome(s)
    case _ => Outcome(s, [])
  }

  /** One run of the work handler on a snapshot of shared memory. A word that
      fails the integrity check tears the link down and keeps the last status;
      any accepted word becomes the last status, whatever its command. */
  function Work(p: Platform, base: int, s: State, snap: Snapshot): (o: Outcome)
    requires p.Valid()
    ensures !Accepted(snap.word) ==> o.next.oldStatus == s.oldStatus
    ensures Accepted(snap.word) ==> o.next.oldStatus == Command(snap.word)
  {
    if !Accepted(snap.word) then TeardownOutcome(s)
    else
      var cmd := Command(snap.word);
      var o := Dispatch(p, base, s, cmd, snap.conf);
      Outcome(o.next.(oldStatus := cmd), o.calls)
  }

  /** The last status after a series of words, read from the end: the command
      of the last accepted word, or `prev` if no word was accepted. */
  function LastStatus(prev: bv32, snaps: seq<Snapshot>): bv32
    decreases |snaps|
  {
    if snaps == [] then prev
    else
      var w := snaps[|snaps| - 1].word;
      if Accepted(w) then Command(w) else LastStatus(prev, snaps[..|snaps| - 1])
  }

  /** Reading the first word and then the rest gives the same last status. */
  lemma {:induction false} LastStatusFirst(prev: bv32, x: Snapshot, rest: seq<Snapshot>)
    ensures LastStatus(prev, [x] + rest) ==
      LastStatus(if Accepted(x.word) then Command(x.word) else prev, rest)
    decreases |rest|
  {
    if rest != [] {
      var init := rest[..|rest| - 1];
      assert ([x] + rest)[..|rest|] == [x] + init;
      LastStatusFirst(prev, x, init);
    }
  }

  /** Consecutive runs of the serialized worker, one per snapshot. The last
      status they leave is the command of the last word that passed the
      integrity check; corrupted words in between leave no trace in it. */
  function Run(p: Platform, base: int, s: State, snaps: seq<Snapshot>): (r: Outcome)
    requires p.Valid()
    ensures r.next.oldStatus == LastStatus(s.oldStatus, snaps)
    decreases |snaps|
  {
    if snaps == [] then Outcome(s, [])
    else
      assert [snaps[0]] + snaps[1..] == snaps;
      LastStatusFirst(s.oldStatus, snaps[0], snaps[1..]);
      var first := Work(p, base, s, snaps[0]);
      var rest := Run(p, base, first.next, snaps[1..]);
      Outcome(rest.next, first.calls + rest.calls)
  }

  /** `n` copies of `x`. */
  function Repeat<T>(x: T, n: nat): (r: seq<T>)
    ensures |r| == n && forall i :: 0 <= i < n ==> r[i] == x
  {
    seq(n, _ => x)
  }

  /** A word carrying the READY command. */
  predicate IsReady(p: Platform, w: bv32) {
    Accepted(w) && Command(w) == p.codes.ready
  }

  /** A word that fails the integrity check: if the link was configured, the
      only calls are the queue abort followed by the interface cleanup, and the
      link ends unconfigured; otherwise nothing happens at all. The last status
      and the channel table are kept, and no negotiation step occurs. */
  lemma RejectedWord(p: Platform, base: int, s: State, snap: Snapshot)
    requires p.Valid() && !Accepted(snap.word)
    ensures var o := Work(p, base, s, snap);
      && (s.configured ==>
            o.calls == [AbortQueue] + CleanupCalls(s.chans) && o.next == s.(configured := false))
      && (!s.configured ==> o.calls == [] && o.next == s)
      && forall e :: e in o.calls ==> !e.IsNegotiation()
  {
    InterfaceCallKinds(s.chans);
  }

  /** A READY that repeats the last status only processes the queue. */
  lemma RepeatedReady(p: Platform, base: int, s: State, snap: Snapshot)
    requires p.Valid() && IsReady(p, snap.word) && s.oldStatus == p.codes.ready
    ensures Work(p, base, s, snap) == Outcome(s, [ProcessQueue])
  {
  }

  /** A READY after any other status negotiates: config read, buffer pool,
      shared queue, interfaces, in this order, whether or not the config read
      succeeded. The buffer pool and the queue are built on the layout the
      config describes when its version is right, and on the handle's previous
      layout otherwise. */
  lemma FreshReady(p: Platform, base: int, s: State, snap: Snapshot)
    requires p.Valid() && IsReady(p, snap.word) && s.oldStatus != p.codes.ready
    ensures var o := Work(p, base, s, snap);
      var l := if snap.conf.version == p.configVersion then ConfigLayout(base, snap.conf) else s.layout;
      && o.calls == [IobufInit(l), InitQueue(l)] + InitCalls(o.next.chans)
      && o.next == ConfigRead(p, base, s, snap.conf).(oldStatus := p.codes.ready)
      && o.next.configured == (s.configured || snap.conf.version == p.configVersion)
  {
  }

  /** A boot firmware request tears a configured link down (queue abort, then
      cleanup) and does nothing to an unconfigured one. */
  lemma BootRequest(p: Platform, base: int, s: State, snap: Snapshot)
    requires p.Valid() && Accepted(snap.word)
    requires Command(snap.word) in {p.codes.bootFwReq, p.codes.bootRestartFwReq}
    ensures var o := Work(p, base, s, snap);
      var cmd := Command(snap.word);
      && (s.configured ==>
            o.calls == [AbortQueue] + CleanupCalls(s.chans)
            && o.next == s.(configured := false, oldStatus := cmd))
      && (!s.configured ==> o.calls == [] && o.next == s.(oldStatus := cmd))
  {
  }

  /** Boot errors, unsolicited cold-boot or firmware-configured indications and
      unknown commands make no call and change nothing but the last status. */
  lemma LoggedOnly(p: Platform, base: int, s: State, snap: Snapshot)
    requires p.Valid() && Accepted(snap.word)
    requires Classify(p.codes, Command(snap.word)) in {BootError, ProtocolViolation, Unknown}
    ensures Work(p, base, s, snap) == Outcome(s.(oldStatus := Command(snap.word)), [])
  {
  }

  /** No negotiation step happens unless the word is an accepted READY that
      differs from the last status: no collaborator is initialised, and the
      config is not read, so the layout, the channel table and the config
      reference are kept. A corrupted word can never bring the link up. */
  lemma NegotiationNeedsFreshReady(p: Platform, base: int, s: State, snap: Snapshot)
    requires p.Valid() && !(IsReady(p, snap.word) && s.oldStatus != p.codes.ready)
    ensures forall e :: e in Work(p, base, s, snap).calls ==> !e.IsNegotiation()
    ensures var o := Work(p, base, s, snap);
      o.next.layout == s.layout && o.next.chans == s.chans && o.next.conf == s.conf
  {
    InterfaceCallKinds(s.chans);
  }

  /** The link becomes configured only by a fresh READY whose config block has
      the right version. */
  lemma ConfiguredOnlyByNegotiation(p: Platform, base: int, s: State, snap: Snapshot)
    requires p.Valid() && !s.configured && Work(p, base, s, snap).next.configured
    ensures IsReady(p, snap.word) && s.oldStatus != p.codes.ready
    ensures snap.conf.version == p.configVersion
  {
  }

  /** Once READY is the last status, further identical READY runs do nothing
      but process the queue, once per run. */
  lemma {:induction false} ReadyRepeated(p: Platform, base: int, s: State, snap: Snapshot, n: nat)
    requires p.Valid() && IsReady(p, snap.word) && s.oldStatus == p.codes.ready
    ensures Run(p, base, s, Repeat(snap, n)) == Outcome(s, Repeat(ProcessQueue, n))
    decreases n
  {
    if n > 0 {
      RepeatedReady(p, base, s, snap);
      assert Repeat(snap, n)[1..] == Repeat(snap, n - 1);
      ReadyRepeated(p, base, s, snap, n - 1);
      assert [ProcessQueue] + Repeat(ProcessQueue, n - 1) == Repeat(ProcessQueue, n);
    }
  }

  /** A burst of identical READY words after another status yields exactly
      one negotiation, followed by one queue processing per further word; never
      two negotiations. */
  lemma ReadyBurst(p: Platform, base: int, s: State, snap: Snapshot, n: nat)
    requires p.Valid() && IsReady(p, snap.word) && s.oldStatus != p.codes.ready
    ensures var first := Work(p, base, s, snap);
      && first.calls == NegotiationOutcome(p, base, s, snap.conf).calls
      && Run(p, base, s, Repeat(snap, n + 1)) == Outcome(first.next, first.calls + Repeat(ProcessQueue, n))
  {
    var first := Work(p, base, s, snap);
    assert Repeat(snap, n + 1)[0] == snap;
    assert Repeat(snap, n + 1)[1..] == Repeat(snap, n);
    ReadyRepeated(p, base, first.next, snap, n);
  }

  /** A corrupted word keeps the last status, so if the link was up on READY
      and the next word is a valid READY again, the link is torn down and then
      only the queue is processed: no renegotiation follows the teardown. */
  lemma ReadyAfterCorruption(p: Platform, base: int, s: State, bad: Snapshot, good: Snapshot)
    requires p.Valid() && s.configured && s.oldStatus == p.codes.ready
    requires !Accepted(bad.word) && IsReady(p, good.word)
    ensures Run(p, base, s, [bad, good]) ==
      Outcome(s.(configured := false), [AbortQueue] + CleanupCalls(s.chans) + [ProcessQueue])
  {
    var torn := Work(p, base, s, bad);
    assert torn == Outcome(s.(configured := false), [AbortQueue] + CleanupCalls(s.chans));
    RepeatedReady(p, base, torn.next, good);
    assert [bad, good][1..] == [good];
    assert Run(p, base, torn.next, [good]) == Outcome(torn.next, [ProcessQueue]);
  }

  /** Two concrete words with READY encoded as 1. 0xFFFE0001, a correctly
      complemented READY, first negotiates and then, repeated, only processes
      the queue; 0x00000001, the same command with a zero high half, tears a
      configured link down and keeps the last status. */
  lemma ExampleScenario(p: Platform, base: int, s: State, c: Config)
    requires p.Valid() && p.codes.ready == 1 && s.oldStatus != 1
    ensures var good := Snapshot(0xFFFE_0001, c);
      var first := Work(p, base, s, good);
      && first.calls == NegotiationOutcome(p, base, s, c).calls
      && Work(p, base, first.next, good) == Outcome(first.next, [ProcessQueue])
    ensures s.configured ==>
      Work(p, base, s, Snapshot(0x0000_0001, c)) ==
        Outcome(s.(configured := false), [AbortQueue] + CleanupCalls(s.chans))
  {
    ExampleWords();
  }
}
