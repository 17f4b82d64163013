/** The AP-side handle of the shared-memory link and the operations that run on
    its serialized worker: the config reader, interface start and stop, and the
    work handler. Each method is proved to do to the handle what the functions
    of module Control say; calls into collaborators are appended to a ghost
    trace. */
module Ipc {
  import opened Mailbox
  import opened Shmem
  import opened Interfaces
  import opened Control

  class Handle {
    /** Build-time constants: config version, channel count, command codes. */
    const platform: Platform
    /** The IPC region: its base (opaque) and the size the kernel mapped. */
    const ipcBase: int
    const ipcSize: int

    var descBase: int
    var descSize: int
    var dataBase: int
    var dataSize: int
    var queueHead: int
    var queueTail: int
    /** The config block last accepted. */
    var conf: Option<Config>
    var configured: bool
    /** The last command that passed the integrity check. */
    var oldStatus: bv32
    /** The channel table, one entry per channel. */
    const chan: array<Channel>

    /** The collaborator calls made so far, in order. */
    ghost var trace: seq<Event>

    ghost predicate Valid()
      reads this
    {
      platform.Valid() && chan.Length == platform.maxChannels
    }

    function Regions(): Layout
      reads this
    {
      Shmem.Layout(descBase, descSize, dataBase, dataSize, queueHead, queueTail)
    }

    /** The handle as the state machine sees it. */
    function View(): State
      reads this, chan
    {
      Control.State(configured, oldStatus, Regions(), chan[..], conf)
    }

    /** A zero-filled handle for an IPC region at `ipcBase` of `ipcSize` bytes. */
    constructor (platform: Platform, ipcBase: int, ipcSize: int)
      requires platform.Valid()
      ensures Valid() && fresh(chan)
      ensures this.platform == platform && this.ipcBase == ipcBase && this.ipcSize == ipcSize
      ensures View() == Initial(platform.maxChannels) && trace == []
    {
      this.platform := platform;
      this.ipcBase := ipcBase;
      this.ipcSize := ipcSize;
      descBase, descSize, dataBase, dataSize, queueHead, queueTail := 0, 0, 0, 0, 0, 0;
      conf := None;
      configured := false;
      oldStatus := 0;
      chan := new Channel[platform.maxChannels](_ => ZeroChannel);
      trace := [];
    }

    /** Reads the config block. A block of another version is refused with -1
        and the handle is left untouched, `configured` included; otherwise the
        regions and queue ends are derived from the block, the channel map is
        copied entry by entry, the handle becomes configured and 0 is returned.
        A block reporting a region size other than the mapped one is accepted
        all the same (the source only warns). */
    method ReadConfig(c: Config) returns (ret: int)
      requires Valid() && |c.chanMap| == platform.maxChannels
      modifies this, chan
      ensures Valid() && trace == old(trace)
      ensures ret == (if c.version == platform.configVersion then 0 else -1)
      ensures View() == ConfigRead(platform, ipcBase, old(View()), c)
    {
      if c.version != platform.configVersion {
        return -1;
      }
      if ipcSize != c.shmemSize {
        // Mapped and reported sizes differ: a warning only.
      }
      descBase := ipcBase + c.regionApDescOffset;
      descSize := c.regionApDescSize;
      dataBase := ipcBase + c.regionApDataOffset;
      dataSize := c.regionApDataSize;
      queueHead := ipcBase + c.queueBbOffset;
      queueTail := ipcBase + c.queueApOffset;
      var i := 0;
      while i < platform.maxChannels
        invariant 0 <= i <= platform.maxChannels
        invariant forall k :: 0 <= k < i ==> chan[k] == Channel(k, c.chanMap[k])
        modifies chan
      {
        chan[i] := Channel(i, c.chanMap[i]);
        i := i + 1;
      }
      assert chan[..] == CopyChannels(c.chanMap);
      conf := Some(c);
      configured := true;
      return 0;
    }

    /** Counts the channels of each type the classifier knows. */
    method CountChannels() returns (ntty: nat, nlog: nat, nnet: nat)
      requires Valid()
      ensures ntty == CountOf(chan[..], Tty)
      ensures nlog == CountOf(chan[..], Log)
      ensures nnet == CountOf(chan[..], Net)
    {
      ntty, nlog, nnet := 0, 0, 0;
      var i := 0;
      while i < platform.maxChannels
        invariant 0 <= i <= platform.maxChannels
        invariant ntty == CountOf(chan[..i], Tty)
        invariant nlog == CountOf(chan[..i], Log)
        invariant nnet == CountOf(chan[..i], Net)
      {
        assert chan[..i + 1][..i] == chan[..i];
        match chan[i].entry.kind {
          case Tty => ntty := ntty + 1;
          case Log => nlog := nlog + 1;
          case Net => nnet := nnet + 1;
          case _ =>
        }
        i := i + 1;
      }
      assert chan[..i] == chan[..];
    }

    /** Starts each adapter family that has a channel, once: terminals, then
        network. Log channels are only counted. */
    method InitInterfaces() returns (ret: int)
      requires Valid()
      modifies this`trace
      ensures ret == 0
      ensures trace == old(trace) + InitCalls(chan[..])
    {
      var ntty, nlog, nnet := CountChannels();
      if ntty > 0 {
        trace := trace + [TtyInit];
      }
      if nnet > 0 {
        trace := trace + [NetInit];
      }
      return 0;
    }

    /** Clears `configured`, then stops each adapter family that has a channel,
        once: terminals, then network. */
    method CleanupInterfaces() returns (ret: int)
      requires Valid()
      modifies this`configured, this`trace
      ensures ret == 0 && !configured
      ensures trace == old(trace) + CleanupCalls(chan[..])
    {
      configured := false;
      var ntty, nlog, nnet := CountChannels();
      if ntty > 0 {
        trace := trace + [TtyCleanup];
      }
      if nnet > 0 {
        trace := trace + [NetCleanup];
      }
      return 0;
    }

    /** Aborts the shared queue, then cleans up the interfaces, if the link is
        configured; does nothing otherwise. */
    method TearDown()
      requires Valid()
      modifies this`configured, this`trace
      ensures View() == TeardownOutcome(old(View())).next
      ensures trace == old(trace) + TeardownOutcome(old(View())).calls
    {
      if configured {
        trace := trace + [AbortQueue];
        var _ := CleanupInterfaces();
      }
    }

    /** The fresh-READY sequence: config read (its result ignored), buffer
        pool, shared queue, interfaces. */
    method Negotiation(c: Config)
      requires Valid() && |c.chanMap| == platform.maxChannels
      modifies this, chan
      ensures Valid()
      ensures View() == NegotiationOutcome(platform, ipcBase, old(View()), c).next
      ensures trace == old(trace) + NegotiationOutcome(platform, ipcBase, old(View()), c).calls
    {
      var _ := ReadConfig(c);
      trace := trace + [IobufInit(Regions())];
      trace := trace + [InitQueue(Regions())];
      var _ := InitInterfaces();
    }

    /** One run of the work handler on a snapshot of shared memory: the handle
        and the calls made follow `Work`, so every property proved of `Work`
        holds of this method. */
    method IpcWork(snap: Snapshot)
      requires Valid() && |snap.conf.chanMap| == platform.maxChannels
      modifies this, chan
      ensures Valid()
      ensures View() == Work(platform, ipcBase, old(View()), snap).next
      ensures trace == old(trace) + Work(platform, ipcBase, old(View()), snap).calls
    {
      var newState := snap.word;
      var cmd := Command(newState);
      if !Accepted(newState) {
        TearDown();
        return;
      }
      match Classify(platform.codes, cmd) {
        case Ready =>
          if cmd == oldStatus {
            trace := trace + [ProcessQueue];
          } else {
            Negotiation(snap.conf);
          }
          oldStatus := cmd;
          return;
        case BootFwRequest =>
          TearDown();
        case BootError =>
        case ProtocolViolation =>
        case Unknown =>
      }
      oldStatus := cmd;
    }
  }
}
