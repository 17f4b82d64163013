/** The channel classifier: which adapter families a channel table needs, and
    the calls that bring them up or take them down. */
module Interfaces {
  import opened Shmem

  /** The number of channels of type `k`. */
  function CountOf(chans: seq<Channel>, k: ChanType): (n: nat)
    ensures n <= |chans|
    decreases |chans|
  {
    if chans == [] then 0
    else CountOf(chans[..|chans| - 1], k) + (if chans[|chans| - 1].entry.kind == k then 1 else 0)
  }

  /** Some channel of the table has type `k`. */
  ghost predicate HasChannel(chans: seq<Channel>, k: ChanType) {
    exists i :: 0 <= i < |chans| && chans[i].entry.kind == k
  }

  /** A type is counted at least once exactly when some channel has it. */
  lemma {:induction false} CountPositiveIffPresent(chans: seq<Channel>, k: ChanType)
    ensures CountOf(chans, k) > 0 <==> HasChannel(chans, k)
    decreases |chans|
  {
    if chans != [] {
      var init := chans[..|chans| - 1];
      CountPositiveIffPresent(init, k);
      if HasChannel(init, k) {
        var i :| 0 <= i < |init| && init[i].entry.kind == k;
        assert chans[i] == init[i];
      }
      if HasChannel(chans, k) && chans[|chans| - 1].entry.kind != k {
        var i :| 0 <= i < |chans| && chans[i].entry.kind == k;
        assert init[i] == chans[i];
      }
    }
  }

  /** The adapter-family initialisers for a channel table: the terminal family
      if any channel is a terminal, then the network family if any channel is a
      network channel. Log and unmapped channels start nothing. */
  function InitCalls(chans: seq<Channel>): (calls: seq<Event>)
    ensures TtyInit in calls <==> CountOf(chans, Tty) > 0
    ensures NetInit in calls <==> CountOf(chans, Net) > 0
    ensures |calls| <= 2
  {
    (if CountOf(chans, Tty) > 0 then [TtyInit] else []) +
    (if CountOf(chans, Net) > 0 then [NetInit] else [])
  }

  /** The adapter-family cleanups, mirroring `InitCalls`. */
  function CleanupCalls(chans: seq<Channel>): (calls: seq<Event>)
    ensures TtyCleanup in calls <==> CountOf(chans, Tty) > 0
    ensures NetCleanup in calls <==> CountOf(chans, Net) > 0
    ensures |calls| <= 2
  {
    (if CountOf(chans, Tty) > 0 then [TtyCleanup] else []) +
    (if CountOf(chans, Net) > 0 then [NetCleanup] else [])
  }

  /** Each family is initialised once, not once per channel, exactly when one
      of its channels is present, and terminals come before network. */
  lemma InitCallsByPresence(chans: seq<Channel>)
    ensures InitCalls(chans) ==
      (if HasChannel(chans, Tty) then [TtyInit] else []) +
      (if HasChannel(chans, Net) then [NetInit] else [])
  {
    CountPositiveIffPresent(chans, Tty);
    CountPositiveIffPresent(chans, Net);
  }

  /** Each family is cleaned up once exactly when one of its channels is
      present, terminals before network. */
  lemma CleanupCallsByPresence(chans: seq<Channel>)
    ensures CleanupCalls(chans) ==
      (if HasChannel(chans, Tty) then [TtyCleanup] else []) +
      (if HasChannel(chans, Net) then [NetCleanup] else [])
  {
    CountPositiveIffPresent(chans, Tty);
    CountPositiveIffPresent(chans, Net);
  }

  /** Initialisation makes only negotiation calls; cleanup makes none. */
  lemma InterfaceCallKinds(chans: seq<Channel>)
    ensures forall e :: e in InitCalls(chans) ==> e == TtyInit || e == NetInit
    ensures forall e :: e in CleanupCalls(chans) ==> e == TtyCleanup || e == NetCleanup
  {
  }

  /** Two terminal channels, no log channel and one network channel: each
      family is started, and later stopped, exactly once. */
  lemma TwoTerminalsOneNetwork(chans: seq<Channel>)
    requires CountOf(chans, Tty) == 2 && CountOf(chans, Log) == 0 && CountOf(chans, Net) == 1
    ensures InitCalls(chans) == [TtyInit, NetInit]
    ensures CleanupCalls(chans) == [TtyCleanup, NetCleanup]
  {
  }

  /** The same on a concrete table, where an unmapped entry starts nothing. */
  lemma TwoTerminalsOneNetworkTable()
    ensures var table := [Channel(0, ChanMap(Tty, "at")), Channel(1, ChanMap(Tty, "data")),
                          Channel(2, ChanMap(Net, "rmnet")), Channel(3, ChanMap(Unmap, ""))];
            InitCalls(table) == [TtyInit, NetInit] && CleanupCalls(table) == [TtyCleanup, NetCleanup]
  {
    var table := [Channel(0, ChanMap(Tty, "at")), Channel(1, ChanMap(Tty, "data")),
                  Channel(2, ChanMap(Net, "rmnet")), Channel(3, ChanMap(Unmap, ""))];
    InitCallsByPresence(table);
    CleanupCallsByPresence(table);
    assert table[0].entry.kind == Tty && table[2].entry.kind == Net;
  }
}
