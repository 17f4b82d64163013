/** What the link reads from shared memory, the constants the driver is built
    with, and the calls it makes into its collaborators. Addresses are integers:
    offsets added to the opaque base of the IPC region. */
module Shmem {

  datatype Option<T> = None | Some(value: T)

  /** The type tag of a channel-map entry. The peer writes these tags, so a tag
      outside the four the driver knows is possible; it is kept as `Other`. */
  datatype ChanType = Unmap | Tty | Log | Net | Other(tag: int)

  /** One entry of the channel map in the config block. */
  datatype ChanMap = ChanMap(kind: ChanType, name: string)

  /** One entry of the handle's channel table: a stable index and a copy of the
      map entry taken at negotiation time. */
  datatype Channel = Channel(index: int, entry: ChanMap)

  /** The value of a channel entry in a zero-filled handle. */
  const ZeroChannel := Channel(0, ChanMap(Unmap, ""))

  /** The config block the peer publishes in the mailbox region. */
  datatype Config = Config(
    version: int,
    shmemSize: int,
    regionApDescOffset: int,
    regionApDescSize: int,
    regionApDataOffset: int,
    regionApDataSize: int,
    queueBbOffset: int,
    queueApOffset: int,
    chanMap: seq<ChanMap>)

  /** What one run of the work handler sees of shared memory: the mailbox word
      and the config block, read as one snapshot. */
  datatype Snapshot = Snapshot(word: bv32, conf: Config)

  /** The regions and queue ends the handle derives from the config block. */
  datatype Layout = Layout(
    descBase: int,
    descSize: int,
    dataBase: int,
    dataSize: int,
    queueHead: int,
    queueTail: int)

  const ZeroLayout := Layout(0, 0, 0, 0, 0, 0)

  /** The layout a config block describes for an IPC region at `base`
      (hardware build: the head of the shared queue is the baseband's queue). */
  function ConfigLayout(base: int, c: Config): (l: Layout)
    ensures l.descBase - base == c.regionApDescOffset && l.dataBase - base == c.regionApDataOffset
    ensures l.descSize == c.regionApDescSize && l.dataSize == c.regionApDataSize
    ensures l.queueHead - base == c.queueBbOffset && l.queueTail - base == c.queueApOffset
  {
    Layout(base + c.regionApDescOffset, c.regionApDescSize,
           base + c.regionApDataOffset, c.regionApDataSize,
           base + c.queueBbOffset, base + c.queueApOffset)
  }

  /** The mailbox command codes. Their values live in a header that is not part
      of this model, so they are parameters; the work handler's switch only
      requires them to be pairwise distinct. */
  datatype Codes = Codes(
    ready: bv32,
    bootFwReq: bv32,
    bootRestartFwReq: bv32,
    bootErrors: seq<bv32>,
    coldBootInd: bv32,
    fwConf: bv32)
  {
    /** The codes that are not boot errors. */
    function Singles(): seq<bv32> {
      [ready, bootFwReq, bootRestartFwReq, coldBootInd, fwConf]
    }

    /** Eight boot-error codes, and no two codes equal, as the case labels of a
        switch must be. */
    ghost predicate Distinct() {
      |bootErrors| == 8 &&
      (forall i, j :: 0 <= i < j < |bootErrors| ==> bootErrors[i] != bootErrors[j]) &&
      (forall i, j :: 0 <= i < j < |Singles()| ==> Singles()[i] != Singles()[j]) &&
      (forall e :: e in bootErrors ==> e !in Singles())
    }
  }

  /** The build-time constants of the driver: the config version it accepts,
      the number of channels, and the command codes. */
  datatype Platform = Platform(configVersion: int, maxChannels: nat, codes: Codes)
  {
    ghost predicate Valid() {
      codes.Distinct()
    }
  }

  /** A call into a collaborator, recorded in the order the driver makes it.
      The buffer-pool and queue initialisers read the handle's layout, so their
      events carry the layout they see. */
  datatype Event =
    | AbortQueue
    | ProcessQueue
    | IobufInit(layout: Layout)
    | InitQueue(layout: Layout)
    | TtyInit
    | TtyCleanup
    | NetInit
    | NetCleanup
  {
    /** A step of bringing the link up. */
    predicate IsNegotiation() {
      IobufInit? || InitQueue? || TtyInit? || NetInit?
    }
  }
}
