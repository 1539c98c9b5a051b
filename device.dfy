/**
  What blkzone learns from the operating system, taken as inputs: the outcome
  of opening and probing the device node (init_device), and the zone size read
  from the whole disk's queue/chunk_sectors attribute (blkdev_chunk_sectors).
 */
module Device {
  import opened Wrappers
  import opened U64

  /** Why an invocation stops; each is an err()/errx() exit with a non-zero status. */
  datatype Error =
    | CannotOpen
    | StatFailed
    | NotBlockDevice
    | SectorsIoctlFailed
    | SectorSizeIoctlFailed
    | OffsetBeyondDevice
    | ReportIoctlFailed
    | UnknownZoneSize
    | MisalignedOffset
    | ResetIoctlFailed

  /**
    The answers of the system calls init_device makes, in its order: open,
    fstat, the S_ISBLK test, then the sector-count and sector-size ioctls
    (None when the ioctl fails).
   */
  datatype Probe = Probe(opens: bool, stats: bool, isBlock: bool, sectors: Option<u64>, sectorSize: Option<int>)

  datatype Geometry = Geometry(totalSectors: u64, secSize: int)

  /** init_device: the device's geometry, or the first check that failed. */
  function ProbeGeometry(p: Probe): (r: Result<Geometry, Error>)
    ensures r.Success? <==> p.opens && p.stats && p.isBlock && p.sectors.Some? && p.sectorSize.Some?
    ensures r.Success? ==> r.value.totalSectors == p.sectors.value && r.value.secSize == p.sectorSize.value
    ensures !p.opens ==> r == Failure(CannotOpen)
    ensures p.opens && !p.stats ==> r == Failure(StatFailed)
    ensures p.opens && p.stats && !p.isBlock ==> r == Failure(NotBlockDevice)
    ensures p.opens && p.stats && p.isBlock && p.sectors.None? ==> r == Failure(SectorsIoctlFailed)
    ensures p.opens && p.stats && p.isBlock && p.sectors.Some? && p.sectorSize.None? ==>
              r == Failure(SectorSizeIoctlFailed)
  {
    if !p.opens then Failure(CannotOpen)
    else if !p.stats then Failure(StatFailed)
    else if !p.isBlock then Failure(NotBlockDevice)
    else if p.sectors.None? then Failure(SectorsIoctlFailed)
    else if p.sectorSize.None? then Failure(SectorSizeIoctlFailed)
    else Success(Geometry(p.sectors.value, p.sectorSize.value))
  }

  /** A dev_t split into its major and minor numbers. */
  datatype DevNo = DevNo(major: u32, minor: u32)

  /** ~0x0f as the unsigned int the minor number is masked with. */
  const PartitionMask: u32 := 0xFFFF_FFF0

  /**
    The whole-disk device of a partition: the same major number, and the minor
    number with its low four (partition) bits masked off.
   */
  function WholeDisk(d: DevNo): (w: DevNo)
    ensures w.major == d.major
    ensures w.minor % 16 == 0
    ensures w.minor <= d.minor < w.minor + 16
  {
    MaskedMinor(d.minor);
    DevNo(d.major, And(d.minor, PartitionMask))
  }

  /** minor & ~0x0f rounds the minor number down to a multiple of 16. */
  lemma MaskedMinor(minor: u32)
    ensures And(minor, PartitionMask) == minor - minor % 16
    ensures (minor - minor % 16) % 16 == 0
  {
    Pow2Widths();
    AndClearLow(minor, 4, 32);
    DivModUnique(minor - minor % 16, 16, minor / 16, 0);
  }

  /**
    The sysfs entries blkzone can reach: a device number is present when
    sysfs_init succeeds for it, and maps to the value read from its
    queue/chunk_sectors, or None when that read fails.
   */
  type Sysfs = map<DevNo, Option<u64>>

  /** blkdev_chunk_sectors: the zone size of the whole disk holding d, or 0 when it cannot be read. */
  function ChunkSectors(d: DevNo, sysfs: Sysfs): (r: u64)
    ensures r != 0 ==> WholeDisk(d) in sysfs && sysfs[WholeDisk(d)] == Some(r)
    ensures WholeDisk(d) !in sysfs || sysfs[WholeDisk(d)].None? ==> r == 0
    ensures WholeDisk(d) in sysfs && sysfs[WholeDisk(d)].Some? ==> r == sysfs[WholeDisk(d)].value
  {
    var w := WholeDisk(d);
    if w !in sysfs then 0
    else match sysfs[w]
      case None => 0
      case Some(sz) => sz
  }

  /** All partitions of one disk (same major, same minor up to the low four bits) read the same zone size. */
  lemma PartitionsShareZoneSize(d1: DevNo, d2: DevNo, sysfs: Sysfs)
    requires d1.major == d2.major && d1.minor / 16 == d2.minor / 16
    ensures WholeDisk(d1) == WholeDisk(d2)
    ensures ChunkSectors(d1, sysfs) == ChunkSectors(d2, sysfs)
  {
    // Both minors split as 16 * (minor / 16) + minor % 16; WholeDisk keeps the first part.
    var w1, w2 := WholeDisk(d1), WholeDisk(d2);
    DivModUnique(d1.minor, 16, w1.minor / 16, d1.minor - w1.minor);
    DivModUnique(d2.minor, 16, w2.minor / 16, d2.minor - w2.minor);
  }
}
