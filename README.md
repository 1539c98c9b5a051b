# blkzone, modelled in Dafny

`blkzone` is the util-linux command that reports and resets the zones of a
zoned block device. This project models its decision logic, with the
operating system taken as input: the device's geometry, the descriptors it
returns, and its zone size.

- **Command table** (`Commands`): the two-entry `commands` table and
  `name_to_command`'s search loop. Also `main`'s rule that an `argv[1]` not
  starting with `-` must name a command.
- **Report** (`Blkzone.Control.Report`, `Blkzone.ReportSpec`, `Zones`):
  - The offset is checked against the device size.
  - The zone count is normalised in place. 0 becomes 1, and counts above
    `MAX_REPORT_LEN` (65536) are clamped with a warning.
  - The request `(sector, nr_zones)` is written into a `struct blk_zone_report`
    buffer. The device fills the buffer.
  - The printing loop walks the buffer in order and stops at the first
    descriptor of length 0.
  - Each descriptor becomes a record. The record holds the write pointer
    relative to start (uint64 subtraction) and the condition and type names.
- **Reset** (`Blkzone.Control.Reset`, `Blkzone.ResetSpec`, `Blkzone.ResetRange`):
  - A zone size of 0 fails before the device is opened.
  - The alignment test is `offset & (zonesize - 1)`.
  - The offset is checked against the device size.
  - The sector range is computed in uint64 arithmetic. When the range runs
    past the device, the count is `total_sectors - length`: a count of zones
    subtracted from a count of sectors. The model keeps this exactly as
    written. `Blkzone.ResetClampOverruns` shows that such a range can reach
    past the end of the device.
- **Zone size lookup** (`Device`):
  - The partition's device number becomes the whole disk's by masking the
    minor number with `~0x0f`.
  - `queue/chunk_sectors` is read from that disk. A failure gives 0.

All integers are the C code's fixed widths (`U64`): uint64 sums, differences
and products wrap modulo 2^64. Bitwise AND is defined bit by bit. It is proved
that masking with `2^k - 1` takes the remainder modulo `2^k`. It is also proved
that masking with `2^n - 2^k` clears the low `k` bits.

Two details of the report as written:
- A report count of 0 becomes 1. `DEF_REPORT_LEN` (4096) is declared and never
  used (`Blkzone.ReportZeroLengthIsOne`).
- The report names each zone's condition from `condition_str` as declared: 15
  entries indexed by `cond & 15`. The model of the report does the same
  (`Zones.Render`). The 16-entry table in `Zones.ConditionStr` is the correction
  that the Findings propose. The report does not use it.

## Model

| member | source | states |
|---|---|---|
| `Commands.Find` | sys-utils/blkzone.c:70-85 | the entry found is in the table and carries the name; none is found exactly when no entry has that name; the entry found is the first with that name |
| `Commands.NameToCommand` | sys-utils/blkzone.c:75-85 | the search loop returns the first entry with the given name: "report" gives entry 0, "reset" gives entry 1, and any other name gives NULL |
| `Commands.SelectCommand` | sys-utils/blkzone.c:303-309 | an argv[1] that exists and does not start with '-' selects a command or is an unknown-command error; an empty argv[1] is looked up too |
| `Commands.SelectionByVerb` | sys-utils/blkzone.c:70-73 | "report" selects the report handler and "reset" the reset handler; any other word not starting with '-' is rejected before any device is touched |
| `Device.ProbeGeometry` | sys-utils/blkzone.c:87-108 | the geometry is returned exactly when open, fstat, the block-device test and both ioctls succeed; the first failure in that order is the error |
| `Device.WholeDisk` | sys-utils/blkzone.c:196-207 | the whole-disk number keeps the major number; its minor is a multiple of 16, at most the partition's minor, and less than 16 below it |
| `Device.ChunkSectors` | sys-utils/blkzone.c:193-215 | the zone size is the value read from the whole disk's sysfs entry when the read succeeds; a missing entry or a failed read gives 0 |
| `Device.PartitionsShareZoneSize` | sys-utils/blkzone.c:202-207 | partitions with the same major number and the same minor number divided by 16 map to one whole disk and read one zone size |
| `U64.Add` | sys-utils/blkzone.c:240 | uint64 addition is the sum, less 2^64 when it overflows |
| `U64.Sub` | sys-utils/blkzone.c:241 | uint64 subtraction is the difference, plus 2^64 when it would be negative |
| `U64.Mul` | sys-utils/blkzone.c:238 | uint64 multiplication is the product modulo 2^64, which is the product itself when it fits in 64 bits |
| `U64.And` | sys-utils/blkzone.c:230 | bitwise AND is no larger than either operand |
| `U64.AndLowMask` | sys-utils/blkzone.c:230 | x & (2^k - 1) == x mod 2^k |
| `U64.AndClearLow` | sys-utils/blkzone.c:198 | for x < 2^n, x & (2^n - 2^k) == x - x mod 2^k, which clears the low k bits |
| `Zones.AsWrittenConditionIndex` | sys-utils/blkzone.c:180 | the index cond & ARRAY_SIZE(condition_str) is cond & 15, the low four bits, so it is always in [0, 15] |
| `Zones.AsWrittenConditionName` | sys-utils/blkzone.c:123-133 | the lookup as written is in bounds exactly when cond mod 16 is not 15 |
| `Zones.AsWrittenConditionOutOfBounds` | sys-utils/blkzone.c:180 | the index is within the 15-entry table exactly when cond mod 16 != 15; the offline code 15 indexes one past the end |
| `Zones.AsWrittenMislabels` | sys-utils/blkzone.c:123-133 | with the table as declared, a read-only zone is named "fu" and a full zone "OL" |
| `Zones.ConditionName` | sys-utils/blkzone.c:180 | corrected lookup, the intended half of the first Findings row: the mnemonic is the entry of a 16-entry table chosen by cond's low four bits, always in bounds |
| `Zones.ConditionNameMatches` | sys-utils/blkzone.c:123-133 | corrected table, the intended half of the second Findings row: every named condition code (linux/blkzoned.h) gets the mnemonic its comment in the table gives |
| `Zones.ReservedConditionNames` | sys-utils/blkzone.c:129 | corrected table: the reserved codes 5 to 12 are named "x" followed by their hexadecimal digit; the declared table stops at "xB" |
| `Zones.AsWrittenShiftedFromTwelve` | sys-utils/blkzone.c:123-133 | the declared table names codes 0 to 11 as the corrected one does; codes 12 to 14 get the corrected name of the next code up |
| `Zones.TypeName` | sys-utils/blkzone.c:116-121 | type_text[type] is in bounds exactly when type < 4 (None stands for the read past the table) |
| `Zones.Render` | sys-utils/blkzone.c:166-181 | the printed write-pointer offset added to start gives back wp modulo 2^64, and it equals wp - start when wp >= start; the other fields are copied; the condition name is `condition_str` as declared at index cond mod 16, absent exactly for 15 (the read past the table); the type name is `type_text[type]`, absent exactly for type >= 4 |
| `Zones.UntilEmpty` | sys-utils/blkzone.c:165-174 | the descriptors printed form the longest prefix that has no zero-length descriptor |
| `Zones.RenderZones` | sys-utils/blkzone.c:165-182 | the loop with its early break prints exactly the rendered longest zero-length-free prefix of the first nr_zones descriptors, each line with the names as the source looks them up |
| `Zones.ZoneReport.constructor` | sys-utils/blkzone.c:152-153 | the report buffer has room for the requested number of descriptors |
| `Blkzone.NormalizedLength` | sys-utils/blkzone.c:145-150 | the normalised zone count lies in [1, 65536], and a count already in range is unchanged |
| `Blkzone.NormalizedLengthProperties` | sys-utils/blkzone.c:145-150 | normalising is idempotent; 0 maps to 1; counts above 65536 map to 65536; only those two cases change the count |
| `Blkzone.ReportSpec` | sys-utils/blkzone.c:135-188 | a report that fails before the request neither warns nor succeeds; a successful report has a device answer and prints no more lines than the zones returned, which are no more than requested |
| `Blkzone.ReportOffsetCheck` | sys-utils/blkzone.c:143-144 | on a device that probes, a report fails with the offset error exactly when offset > total sectors; an offset equal to the size is accepted |
| `Blkzone.ReportRequestShape` | sys-utils/blkzone.c:145-155 | the request asks for the normalised count of zones starting at sector offset; the warning is issued exactly when a request is made and the count exceeded 65536 |
| `Blkzone.ReportListsPrefix` | sys-utils/blkzone.c:163-174 | the count returned is the normalised count, or the number of descriptors available when that is fewer; the lines are, in device order, the rendered descriptors of the longest zero-length-free prefix of those returned |
| `Blkzone.ReportZeroLengthIsOne` | sys-utils/blkzone.c:145-146 | a report with count 0 behaves exactly as one with count 1 |
| `Blkzone.ReportOverLengthIsMax` | sys-utils/blkzone.c:147-150 | a count above 65536 gives the request and result of count 65536, and the warning whenever the request is made |
| `Blkzone.ResetRange` | sys-utils/blkzone.c:238-244 | the reset range starts at offset |
| `Blkzone.ResetRangeWithinDevice` | sys-utils/blkzone.c:238-240 | without wrap-around, when offset + length*zonesize <= total, all length*zonesize sectors are reset and the range lies inside the device |
| `Blkzone.ResetRangeClamped` | sys-utils/blkzone.c:240-241 | without wrap-around, a range that runs past the device is given total_sectors - length sectors (uint64) |
| `Blkzone.ResetOneZoneScenario` | sys-utils/blkzone.c:238-244 | on a 1,000,000-sector device with 65536-sector zones, resetting one zone at 0 resets sectors [0, 65536) |
| `Blkzone.ResetClampOverruns` | sys-utils/blkzone.c:240-241 | the clamp as written can request a range that ends past the device |
| `Blkzone.ResetWrappedRangeEscapesClamp` | sys-utils/blkzone.c:238-240 | a sum offset + zlen that wraps to 0 passes the bound test, so the whole product is requested, a range that runs to 2^64 |
| `Blkzone.ResetProductWraps` | sys-utils/blkzone.c:238-244 | the product length * zonesize wraps: 2^48 zones of 2^16 sectors give zlen 0, and a reset of 0 sectors is requested |
| `Blkzone.AlignmentIsRemainder` | sys-utils/blkzone.c:230 | for a power-of-two zone size, offset & (size - 1) == 0 exactly when offset mod size == 0 |
| `Blkzone.AlignmentNeedsPowerOfTwo` | sys-utils/blkzone.c:230 | for zone size 3 the mask test rejects the aligned offset 3 and accepts the misaligned offset 4 |
| `Blkzone.AlignedOffsetIsMultiple` | sys-utils/blkzone.c:230-233 | an offset that passes the mask test with a power-of-two zone size is a multiple of the zone size |
| `Blkzone.ResetSpec` | sys-utils/blkzone.c:217-256 | a successful reset is the request that was issued, and every request starts at offset |
| `Blkzone.ResetZoneSizeFirst` | sys-utils/blkzone.c:224-228 | an unknown zone size (0) fails the reset before the device is probed, whatever the device is |
| `Blkzone.ResetAlignmentThenOffset` | sys-utils/blkzone.c:230-236 | on a probed device, a misaligned offset fails next, then an offset past the end, each with no reset issued |
| `Blkzone.ResetIssued` | sys-utils/blkzone.c:238-246 | a reset is issued exactly when every check passes, over ResetRange; with a power-of-two zone size the offset is a whole number of zones; the run succeeds exactly when the device accepts |
| `Blkzone.Control.constructor` | sys-utils/blkzone.c:57-68 | the control state holds the parsed command, offset, count and verbosity |
| `Blkzone.Control.InitDevice` | sys-utils/blkzone.c:87-108 | probing returns ProbeGeometry; the sector count is stored once its ioctl succeeds, and the sector size once every step succeeds; otherwise the fields are unchanged |
| `Blkzone.Control.NormalizeLength` | sys-utils/blkzone.c:145-150 | the count field is replaced in place by its normalised value; the warning is given exactly when the old count exceeded 65536 |
| `Blkzone.Control.Report` | sys-utils/blkzone.c:135-188 | the report run, with its buffer and printing loop, is ReportSpec of the old count; the count field is normalised once the request is made and unchanged otherwise; the geometry fields are those that init_device stores |
| `Blkzone.Control.Reset` | sys-utils/blkzone.c:217-256 | the reset run, with zlen reassigned in place, is ResetSpec; the geometry fields are those that init_device stores, and untouched when the zone size is unknown |

## Left out

- Opening the device, `fstat`, `S_ISBLK`, and the sector-count and sector-size ioctls are system calls. Their answers are the input `Device.Probe`.
- The `BLKREPORTZONE` ioctl is kernel code. Its answer is the input `Blkzone.ZoneReply`: either failure or the device's descriptors from the requested sector on. The kernel copies `min(requested, available)` of them and lowers `nr_zones` to that count.
- The `BLKRESETZONE` ioctl is kernel code. The model emits the `(sector, nr_sectors)` request, and whether the device accepts it is a boolean input.
- `sysfs_devname_to_devno`, `sysfs_init` and `sysfs_read_u64` are file I/O. The device number is an input, and the sysfs entries are a map from device numbers to the value read, if the read succeeds.
- `printf` formatting (field widths, hex) is not modelled. Lines are `Zones.ZoneLine` records and the summary is the `zonesReturned` count.
- The verbose outputs are not modelled: "Found N zones" repeats the returned count, and the reset's "successfully reset" message prints offset and zlen.
- The `xmalloc` size computation, `free` and `close` are memory and descriptor management. They are left out.
- `main`'s `getopt_long` and `strtosize_or_err` parsing, `usage`, the version output and locale setup are not modelled. Only the rule for the command word in `argv[1]` is.
- Zones.TypeName: models the read past `type_text` as `None` and does not guess what memory would be printed.
- Zones.Render: models the read past `condition_str` (condition 15) as `None` and does not guess what memory would be printed.
- Blkzone.AlignedOffsetIsMultiple: the remainder reading of the mask test is stated only for power-of-two zone sizes. The source assumes these but does not check.
- Device.WholeDisk: masking the minor number finds the whole disk only for drivers that give each disk 16 consecutive minors. Other minor allocations (extended or dynamic minors) are outside the model.

## Findings

| source | as written | input that shows it | evidently intended | confidence | as-written member | corrected member |
|---|---|---|---|---|---|---|
| sys-utils/blkzone.c:180 | `condition_str[cond & ARRAY_SIZE(condition_str)]` on a 15-entry table, so the index is `cond & 15` | cond = 15 (offline): index 15 reads one entry past the table | a table with one entry per four-bit code, indexed by `cond & 15`, so that every index is in bounds | high; not executed | `Zones.AsWrittenConditionOutOfBounds` | `Zones.ConditionName` |
| sys-utils/blkzone.c:123-133 | reserved mnemonics stop at "xB", so "ro", "fu" and "OL" sit at 12, 13 and 14 | cond = 13 (read-only in linux/blkzoned.h) prints "fu"; cond = 14 (full) prints "OL" | "xC" at 12, then "ro", "fu", "OL" at 13, 14, 15 | medium (the condition codes come from linux/blkzoned.h, which is not part of this model); not executed | `Zones.AsWrittenMislabels` | `Zones.ConditionNameMatches` |
