/**
  The two zone commands: report (check the offset, normalise the zone count,
  ask the device, print up to the first empty descriptor) and reset (find the
  zone size, check alignment and offset, compute the sector range to reset).
 */
module Blkzone {
  import opened Wrappers
  import opened U64
  import opened Device
  import opened Zones
  import Commands

  /** DEF_REPORT_LEN: declared, but a zero count is raised to 1, not to this. */
  const DefReportLen: u64 := 0x1000
  /** MAX_REPORT_LEN: the most zones one report asks for. */
  const MaxReportLen: u64 := 0x1_0000

  /** The zone count a report asks for: 0 becomes 1, counts above MAX_REPORT_LEN become MAX_REPORT_LEN. */
  function NormalizedLength(length: u64): (n: u64)
    ensures 1 <= n <= MaxReportLen
    ensures 1 <= length <= MaxReportLen ==> n == length
  {
    if length < 1 then 1
    else if length > MaxReportLen then MaxReportLen
    else length
  }

  /** Normalising twice is normalising once; zero and over-large counts land on the two bounds. */
  lemma NormalizedLengthProperties(length: u64)
    ensures NormalizedLength(NormalizedLength(length)) == NormalizedLength(length)
    ensures length == 0 ==> NormalizedLength(length) == 1
    ensures length > MaxReportLen ==> NormalizedLength(length) == MaxReportLen
    ensures NormalizedLength(length) != length <==> length == 0 || length > MaxReportLen
  {
  }

  /** The request written into the report buffer (zi->sector, zi->nr_zones). */
  datatype ReportRequest = ReportRequest(sector: u64, nrZones: u32)

  /** What the device answers to BLKREPORTZONE: failure, or its descriptors from the requested sector on. */
  datatype ZoneReply = ReplyFailed | Available(zones: seq<Zone>)

  /** The printed report: the "Zones returned" count and one line per zone. */
  datatype Listing = Listing(zonesReturned: u32, lines: seq<ZoneLine>)

  /** One run of the report command: the clamp warning, the request issued (if any), and the outcome. */
  datatype ReportRun = ReportRun(warned: bool, request: Option<ReportRequest>, result: Result<Listing, Error>)

  function Min(a: nat, b: nat): nat
  {
    if a <= b then a else b
  }

  /** blkzone_report as a function of the device and the requested offset and zone count. */
  function ReportSpec(probe: Probe, offset: u64, length: u64, reply: ZoneReply): (run: ReportRun)
    ensures run.request.None? ==> run.result.Failure? && !run.warned
    ensures run.result.Success? ==>
              reply.Available? && |run.result.value.lines| <= run.result.value.zonesReturned <= NormalizedLength(length)
  {
    match ProbeGeometry(probe)
    case Failure(e) => ReportRun(false, None, Failure(e))
    case Success(g) =>
      if offset > g.totalSectors then ReportRun(false, None, Failure(OffsetBeyondDevice))
      else
        var n := NormalizedLength(length);
        var warned := length > MaxReportLen;
        var request := Some(ReportRequest(offset, n));
        match reply
        case ReplyFailed => ReportRun(warned, request, Failure(ReportIoctlFailed))
        case Available(zones) =>
          var returned := zones[..Min(n, |zones|)];
          ReportRun(warned, request, Success(Listing(|returned|, RenderAll(UntilEmpty(returned)))))
  }

  /** The offset check of a report: on a device that probes, it fails exactly when offset > total sectors. */
  lemma ReportOffsetCheck(probe: Probe, offset: u64, length: u64, reply: ZoneReply)
    requires ProbeGeometry(probe).Success?
    ensures ReportSpec(probe, offset, length, reply).result == Failure(OffsetBeyondDevice) <==>
              offset > ProbeGeometry(probe).value.totalSectors
    ensures ReportSpec(probe, offset, length, reply).request.Some? <==>
              offset <= ProbeGeometry(probe).value.totalSectors
  {
  }

  /** A report asks for the normalised count of zones from sector offset, and warns only when it clamped. */
  lemma ReportRequestShape(probe: Probe, offset: u64, length: u64, reply: ZoneReply)
    ensures var run := ReportSpec(probe, offset, length, reply);
            run.request.Some? ==> run.request.value == ReportRequest(offset, NormalizedLength(length))
    ensures var run := ReportSpec(probe, offset, length, reply);
            run.warned <==> run.request.Some? && length > MaxReportLen
  {
  }

  /**
    The printed lines are, in device order, the rendered descriptors of the
    longest zero-length-free prefix of the ones returned; the device returns
    as many as were asked for, or all it has when that is fewer.
   */
  lemma {:induction false} ReportListsPrefix(probe: Probe, offset: u64, length: u64, zones: seq<Zone>)
    requires ReportSpec(probe, offset, length, Available(zones)).result.Success?
    ensures var l := ReportSpec(probe, offset, length, Available(zones)).result.value;
            && l.zonesReturned == Min(NormalizedLength(length), |zones|)
            && |l.lines| <= l.zonesReturned
            && (forall i :: 0 <= i < |l.lines| ==> zones[i].len != 0 && l.lines[i] == Render(zones[i]))
            && (|l.lines| < l.zonesReturned ==> zones[|l.lines|].len == 0)
  {
  }

  /** A zero count reports exactly as a count of 1 does (not as DEF_REPORT_LEN). */
  lemma ReportZeroLengthIsOne(probe: Probe, offset: u64, reply: ZoneReply)
    ensures ReportSpec(probe, offset, 0, reply) == ReportSpec(probe, offset, 1, reply)
  {
  }

  /** Any count above MAX_REPORT_LEN reports as MAX_REPORT_LEN does, with the warning added once it is reached. */
  lemma ReportOverLengthIsMax(probe: Probe, offset: u64, length: u64, reply: ZoneReply)
    requires length > MaxReportLen
    ensures var run, max := ReportSpec(probe, offset, length, reply), ReportSpec(probe, offset, MaxReportLen, reply);
            run.request == max.request && run.result == max.result && run.warned == max.request.Some?
  {
  }

  /** The reset command's request: BLKRESETZONE over nrSectors sectors from sector. */
  datatype ResetRequest = ResetRequest(sector: u64, nrSectors: u64)

  /**
    The sector range a reset asks for, in uint64 arithmetic: length zones of
    zoneSize sectors from offset, and when that ends past the device, the
    count total_sectors - length (zones subtracted from sectors, as written).
   */
  function ResetRange(offset: u64, length: u64, zoneSize: u64, totalSectors: u64): (r: ResetRequest)
    ensures r.sector == offset
  {
    var zlen := Mul(length, zoneSize);
    if Add(offset, zlen) > totalSectors then ResetRequest(offset, Sub(totalSectors, length))
    else ResetRequest(offset, zlen)
  }

  /** Without wrap-around, a range that fits is reset whole, and then lies within the device. */
  lemma ResetRangeWithinDevice(offset: u64, length: u64, zoneSize: u64, totalSectors: u64)
    requires offset + length * zoneSize <= totalSectors
    ensures var r := ResetRange(offset, length, zoneSize, totalSectors);
            r.nrSectors == length * zoneSize && r.sector + r.nrSectors <= totalSectors
  {
  }

  /** Without wrap-around, a range that does not fit is cut to total_sectors - length sectors (mod 2^64). */
  lemma ResetRangeClamped(offset: u64, length: u64, zoneSize: u64, totalSectors: u64)
    requires length * zoneSize < Modulus && offset + length * zoneSize < Modulus
    requires offset + length * zoneSize > totalSectors
    ensures ResetRange(offset, length, zoneSize, totalSectors).nrSectors == Sub(totalSectors, length)
  {
  }

  /** One zone of 65536 sectors from sector 0 on a 1,000,000-sector device resets sectors [0, 65536). */
  lemma ResetOneZoneScenario()
    ensures ResetRange(0, 1, 65536, 1000000) == ResetRequest(0, 65536)
  {
  }

  /** The clamp as written can reach past the device: the last partial zone is asked for 999999 sectors. */
  lemma ResetClampOverruns()
    ensures var r := ResetRange(983040, 1, 65536, 1000000);
            r == ResetRequest(983040, 999999) && r.sector + r.nrSectors > 1000000
  {
  }

  /**
    A uint64 sum offset + zlen that wraps to 0 passes the bound test: the
    whole product is then asked for, and the range runs to 2^64, far past the device.
   */
  lemma ResetWrappedRangeEscapesClamp()
    ensures var length := 0x1_0000_0000_0000 - 16;
            var r := ResetRange(0x10_0000, length, 0x1_0000, 0x10_0000);
            r.nrSectors == Modulus - 0x10_0000 && r.sector + r.nrSectors == Modulus
  {
    var length := 0x1_0000_0000_0000 - 16;
    assert length * 0x1_0000 == Modulus - 0x10_0000;
  }

  /** A uint64 product length * zonesize that wraps: 2^48 zones of 2^16 sectors ask for 0 sectors. */
  lemma ResetProductWraps()
    ensures Mul(0x1_0000_0000_0000, 0x1_0000) == 0
    ensures ResetRange(0, 0x1_0000_0000_0000, 0x1_0000, 0x10_0000) == ResetRequest(0, 0)
  {
  }

  /** The alignment test offset & (zonesize - 1) is a remainder test when the zone size is a power of two. */
  lemma AlignmentIsRemainder(offset: u64, k: nat)
    ensures And(offset, Pow2(k) - 1) == 0 <==> offset % Pow2(k) == 0
  {
    AndLowMask(offset, k);
  }

  /** For a zone size that is not a power of two the mask test is not a remainder test: with size 3, 3 fails and 4 passes. */
  lemma AlignmentNeedsPowerOfTwo()
    ensures And(3, 3 - 1) != 0 && 3 % 3 == 0
    ensures And(4, 3 - 1) == 0 && 4 % 3 != 0
  {
  }

  /** One run of the reset command: the request issued to the device (if any) and the outcome. */
  datatype ResetRun = ResetRun(request: Option<ResetRequest>, result: Result<ResetRequest, Error>)

  /** blkzone_reset as a function of the device, its sysfs entries and the requested offset and zone count. */
  function ResetSpec(dev: DevNo, sysfs: Sysfs, probe: Probe, offset: u64, length: u64, resetOk: bool): (run: ResetRun)
    ensures run.result.Success? ==> run.request == Some(run.result.value)
    ensures run.request.Some? ==> run.request.value.sector == offset
  {
    var zoneSize := ChunkSectors(dev, sysfs);
    if zoneSize == 0 then ResetRun(None, Failure(UnknownZoneSize))
    else match ProbeGeometry(probe)
      case Failure(e) => ResetRun(None, Failure(e))
      case Success(g) =>
        if And(offset, zoneSize - 1) != 0 then ResetRun(None, Failure(MisalignedOffset))
        else if offset > g.totalSectors then ResetRun(None, Failure(OffsetBeyondDevice))
        else
          var r := ResetRange(offset, length, zoneSize, g.totalSectors);
          ResetRun(Some(r), if resetOk then Success(r) else Failure(ResetIoctlFailed))
  }

  /** An unknown zone size fails the reset first, whatever the device would have answered. */
  lemma ResetZoneSizeFirst(dev: DevNo, sysfs: Sysfs, probe: Probe, offset: u64, length: u64, resetOk: bool)
    requires ChunkSectors(dev, sysfs) == 0
    ensures ResetSpec(dev, sysfs, probe, offset, length, resetOk) == ResetRun(None, Failure(UnknownZoneSize))
  {
  }

  /** On a probed device with a known zone size, a misaligned offset fails next, then an offset past the end. */
  lemma ResetAlignmentThenOffset(dev: DevNo, sysfs: Sysfs, probe: Probe, offset: u64, length: u64, resetOk: bool)
    requires ChunkSectors(dev, sysfs) != 0 && ProbeGeometry(probe).Success?
    ensures var run, zs := ResetSpec(dev, sysfs, probe, offset, length, resetOk), ChunkSectors(dev, sysfs);
            And(offset, zs - 1) != 0 ==> run == ResetRun(None, Failure(MisalignedOffset))
    ensures var run, zs := ResetSpec(dev, sysfs, probe, offset, length, resetOk), ChunkSectors(dev, sysfs);
            And(offset, zs - 1) == 0 && offset > ProbeGeometry(probe).value.totalSectors ==>
              run == ResetRun(None, Failure(OffsetBeyondDevice))
  {
  }

  /**
    A reset is issued exactly when every check passes, over ResetRange from
    the offset, which with a power-of-two zone size is a whole number of zones.
   */
  lemma ResetIssued(dev: DevNo, sysfs: Sysfs, probe: Probe, offset: u64, length: u64, resetOk: bool)
    ensures var run, zs := ResetSpec(dev, sysfs, probe, offset, length, resetOk), ChunkSectors(dev, sysfs);
            run.request.Some? <==>
              zs != 0 && ProbeGeometry(probe).Success? && And(offset, zs - 1) == 0
              && offset <= ProbeGeometry(probe).value.totalSectors
    ensures var run, zs := ResetSpec(dev, sysfs, probe, offset, length, resetOk), ChunkSectors(dev, sysfs);
            run.request.Some? ==>
              && run.request.value == ResetRange(offset, length, zs, ProbeGeometry(probe).value.totalSectors)
              && (IsPowerOfTwo(zs) ==> offset % zs == 0)
              && (run.result.Success? <==> resetOk)
  {
    var zs := ChunkSectors(dev, sysfs);
    if zs != 0 && ProbeGeometry(probe).Success? && And(offset, zs - 1) == 0 {
      AlignedOffsetIsMultiple(offset, zs);
    }
  }

  /** Passing the mask test with a power-of-two zone size means the offset is a whole number of zones. */
  lemma AlignedOffsetIsMultiple(offset: u64, zoneSize: u64)
    requires zoneSize > 0 && And(offset, zoneSize - 1) == 0
    ensures IsPowerOfTwo(zoneSize) ==> offset % zoneSize == 0
  {
    if IsPowerOfTwo(zoneSize) {
      var k :| 0 <= k <= 64 && Pow2(k) == zoneSize;
      AndLowMask(offset, k);
    }
  }

  ghost predicate IsPowerOfTwo(x: nat)
  {
    exists k :: 0 <= k <= 64 && Pow2(k) == x
  }

  /** init_device gets as far as storing the sector count: open, fstat, the block test and that ioctl succeed. */
  predicate SectorsRead(p: Probe)
  {
    p.opens && p.stats && p.isBlock && p.sectors.Some?
  }

  /**
    The control state of one invocation (struct blkzone_control): the command,
    the device geometry init_device fills in, and the offset and zone count
    the report normalises in place.
   */
  class Control {
    var command: Option<Commands.Command>
    var totalSectors: u64
    var secSize: int
    var offset: u64
    var length: u64
    var verbose: bool

    constructor (command: Option<Commands.Command>, offset: u64, length: u64, verbose: bool)
      ensures this.command == command && this.offset == offset && this.length == length && this.verbose == verbose
      ensures totalSectors == 0 && secSize == 0
    {
      this.command := command;
      this.offset := offset;
      this.length := length;
      this.verbose := verbose;
      totalSectors, secSize := 0, 0;
    }

    /** init_device: probe the device and record its sector count and sector size. */
    method InitDevice(probe: Probe) returns (r: Result<Geometry, Error>)
      modifies this`totalSectors, this`secSize
      ensures r == ProbeGeometry(probe)
      ensures totalSectors == if SectorsRead(probe) then probe.sectors.value else old(totalSectors)
      ensures secSize == if r.Success? then r.value.secSize else old(secSize)
    {
      if !probe.opens {
        return Failure(CannotOpen);
      }
      if !probe.stats {
        return Failure(StatFailed);
      }
      if !probe.isBlock {
        return Failure(NotBlockDevice);
      }
      if probe.sectors.None? {
        return Failure(SectorsIoctlFailed);
      }
      totalSectors := probe.sectors.value;
      if probe.sectorSize.None? {
        return Failure(SectorSizeIoctlFailed);
      }
      secSize := probe.sectorSize.value;
      return Success(Geometry(totalSectors, secSize));
    }

    /** The in-place normalisation of the report's zone count; warns exactly when it clamps to the maximum. */
    method NormalizeLength() returns (warned: bool)
      modifies this`length
      ensures length == NormalizedLength(old(length))
      ensures warned <==> old(length) > MaxReportLen
    {
      warned := false;
      if length < 1 {
        length := 1;
      }
      if length > MaxReportLen {
        length := MaxReportLen;
        warned := true;
      }
    }

    /** blkzone_report, with the device's geometry and its answer to the zone query as inputs. */
    method Report(probe: Probe, reply: ZoneReply) returns (run: ReportRun)
      modifies this`totalSectors, this`secSize, this`length
      ensures run == ReportSpec(probe, offset, old(length), reply)
      ensures run.request.Some? ==> length == NormalizedLength(old(length))
      ensures run.request.None? ==> length == old(length)
      ensures totalSectors == if SectorsRead(probe) then probe.sectors.value else old(totalSectors)
      ensures secSize == if ProbeGeometry(probe).Success? then probe.sectorSize.value else old(secSize)
    {
      var g := InitDevice(probe);
      if g.Failure? {
        return ReportRun(false, None, Failure(g.error));
      }
      if offset > totalSectors {
        return ReportRun(false, None, Failure(OffsetBeyondDevice));
      }
      var warned := NormalizeLength();
      var zi := new ZoneReport(length);
      zi.nrZones := length;
      zi.sector := offset;
      var request := Some(ReportRequest(zi.sector, zi.nrZones));
      if reply.ReplyFailed? {
        return ReportRun(warned, request, Failure(ReportIoctlFailed));
      }
      // The device fills the buffer and lowers nr_zones to the count it returned.
      var n := Min(zi.nrZones, |reply.zones|);
      forall i | 0 <= i < n {
        zi.zones[i] := reply.zones[i];
      }
      zi.nrZones := n;
      var lines := RenderZones(zi.zones, zi.nrZones);
      assert zi.zones[..n] == reply.zones[..n];
      run := ReportRun(warned, request, Success(Listing(zi.nrZones, lines)));
    }

    /** blkzone_reset, with the device number, sysfs, the device's geometry and its acceptance of the reset as inputs. */
    method Reset(dev: DevNo, sysfs: Sysfs, probe: Probe, resetOk: bool) returns (run: ResetRun)
      modifies this`totalSectors, this`secSize
      ensures run == ResetSpec(dev, sysfs, probe, offset, length, resetOk)
      ensures totalSectors ==
                if ChunkSectors(dev, sysfs) != 0 && SectorsRead(probe) then probe.sectors.value else old(totalSectors)
      ensures secSize ==
                if ChunkSectors(dev, sysfs) != 0 && ProbeGeometry(probe).Success? then probe.sectorSize.value
                else old(secSize)
    {
      var zoneSize := ChunkSectors(dev, sysfs);
      if zoneSize == 0 {
        return ResetRun(None, Failure(UnknownZoneSize));
      }
      var g := InitDevice(probe);
      if g.Failure? {
        return ResetRun(None, Failure(g.error));
      }
      if And(offset, zoneSize - 1) != 0 {
        return ResetRun(None, Failure(MisalignedOffset));
      }
      if offset > totalSectors {
        return ResetRun(None, Failure(OffsetBeyondDevice));
      }
      var zlen := Mul(length, zoneSize);
      if Add(offset, zlen) > totalSectors {
        zlen := Sub(totalSectors, length);
      }
      var request := ResetRequest(offset, zlen);
      return ResetRun(Some(request), if resetOk then Success(request) else Failure(ResetIoctlFailed));
    }
  }
}
