/**
 * The host-information helpers: the MAC address text built from the node
 * id, the uptime split into days, hours, minutes and seconds, the disk
 * report summed over the partitions that could be measured, and the load
 * average with its fallbacks.
 *
 * Node id, clock, partition list and usage figures are inputs.
 */
module SystemInfo {
  import opened Wrappers
  import opened Strings

  // ------------------------------------------------------------ MAC address

  /** `x >> bits` on a non-negative integer. */
  function Shr(x: nat, bits: nat): nat
    decreases bits
  {
    if bits == 0 then x else Shr(x / 2, bits - 1)
  }

  predicate IsHexDigit(c: char) {
    ('0' <= c <= '9') || ('a' <= c <= 'f')
  }

  function HexDigit(d: nat): (c: char)
    requires d < 16
    ensures IsHexDigit(c)
  {
    "0123456789abcdef"[d]
  }

  function HexValue(c: char): (v: nat)
    ensures IsHexDigit(c) ==> v < 16
  {
    if '0' <= c <= '9' then c as int - '0' as int
    else if 'a' <= c <= 'f' then c as int - 'a' as int + 10
    else 0
  }

  /** `'{:02x}'.format(n)` for a byte: two lower-case hex digits that read back as `n`. */
  function Hex2(n: nat): (r: string)
    requires n < 256
    ensures |r| == 2 && IsHexDigit(r[0]) && IsHexDigit(r[1])
    ensures HexValue(r[0]) * 16 + HexValue(r[1]) == n
  {
    var hi, lo := n / 16, n % 16;
    assert HexValue("0123456789abcdef"[hi]) == hi;
    assert HexValue("0123456789abcdef"[lo]) == lo;
    [HexDigit(hi), HexDigit(lo)]
  }

  predicate Bytes(groups: seq<nat>) {
    forall k :: 0 <= k < |groups| ==> groups[k] < 256
  }

  /** `':'.join` of the two-digit hex texts of the groups. */
  function MacString(groups: seq<nat>): string
    requires Bytes(groups)
  {
    Join(HexParts(groups), ":")
  }

  function HexParts(groups: seq<nat>): (r: seq<string>)
    requires Bytes(groups)
    ensures |r| == |groups|
    ensures forall k :: 0 <= k < |r| ==> r[k] == Hex2(groups[k])
  {
    seq(|groups|, k requires 0 <= k < |groups| => Hex2(groups[k]))
  }

  /** Two lower-case hex digits. */
  predicate HexPair(part: string) {
    |part| == 2 && IsHexDigit(part[0]) && IsHexDigit(part[1])
  }

  /** The byte two hex digits stand for. */
  function PairValue(part: string): (n: nat)
    requires HexPair(part)
    ensures n < 256
  {
    HexValue(part[0]) * 16 + HexValue(part[1])
  }

  /** Reading a MAC text back: six colon-separated pairs of lower-case hex
      digits; anything else reads as None. */
  function ParseMac(s: string): (r: Option<seq<nat>>)
    ensures r.Some? ==> |r.value| == 6 && Bytes(r.value)
  {
    var parts := Split(s, ':');
    if |parts| == 6 && forall k :: 0 <= k < 6 ==> HexPair(parts[k]) then
      Some(seq(6, k requires 0 <= k < 6 => PairValue(parts[k])))
    else None
  }

  /** Six byte groups make a 17-character text that reads back as those groups. */
  lemma MacStringRoundTrip(groups: seq<nat>)
    requires |groups| == 6 && Bytes(groups)
    ensures |MacString(groups)| == 17
    ensures ParseMac(MacString(groups)) == Some(groups)
  {
    var parts := HexParts(groups);
    forall k | 0 <= k < |parts| ensures ':' !in parts[k] {
      assert IsHexDigit(parts[k][0]) && IsHexDigit(parts[k][1]);
    }
    assert ":" == [':'];
    SplitJoin(parts, ':');
    JoinLength(parts, ":");
    SumLengthsOfPairs(parts);
    var back := ParseMac(MacString(groups));
    assert Split(MacString(groups), ':') == parts;
    assert back.Some?;
    forall k | 0 <= k < 6 ensures back.value[k] == groups[k] {
      assert parts[k] == Hex2(groups[k]);
    }
    assert back.value == groups;
    assert |MacString(groups)| == SumLengths(parts) + 5;
  }

  /** A text that reads as a MAC address is the printed form of what it
      reads as: there is exactly one text per six groups. */
  lemma ParseMacText(s: string)
    requires ParseMac(s).Some?
    ensures s == MacString(ParseMac(s).value)
  {
    var groups := ParseMac(s).value;
    var parts := Split(s, ':');
    assert |parts| == 6 && forall k :: 0 <= k < 6 ==> HexPair(parts[k]);
    forall k | 0 <= k < 6 ensures parts[k] == Hex2(groups[k]) {
      assert groups[k] == PairValue(parts[k]);
      HexPairValue(parts[k]);
    }
    assert parts == HexParts(groups);
    JoinSplit(s, ':');
    assert ":" == [':'];
  }

  /** Two hex digits are the `Hex2` text of the byte they read as. */
  lemma HexPairValue(part: string)
    requires HexPair(part)
    ensures Hex2(PairValue(part)) == part
  {
    var hi, lo := HexValue(part[0]), HexValue(part[1]);
    var n := hi * 16 + lo;
    SplitBy(n, 16, hi, lo);
    HexDigitValue(part[0]);
    HexDigitValue(part[1]);
    assert PairValue(part) == n;
    assert Hex2(n) == [HexDigit(hi), HexDigit(lo)];
    assert [HexDigit(hi), HexDigit(lo)] == [part[0], part[1]];
    assert part == [part[0], part[1]];
  }

  /** A hex digit is the digit of its own value. */
  lemma HexDigitValue(c: char)
    requires IsHexDigit(c)
    ensures HexDigit(HexValue(c)) == c
  {
  }

  lemma {:induction false} SumLengthsOfPairs(parts: seq<string>)
    requires forall k :: 0 <= k < |parts| ==> |parts[k]| == 2
    ensures SumLengths(parts) == 2 * |parts|
  {
    if parts != [] {
      SumLengthsOfPairs(parts[1..]);
    }
  }

  const NoMac := "00:00:00:00:00:00"

  /** The groups `_get_mac_address` prints, left to right: the list of
      `(node >> e) & 0xff` for e = 0, 2, ..., 10, reversed. */
  function MacGroups(node: nat): (r: seq<nat>)
    ensures |r| == 6 && Bytes(r)
  {
    seq(6, k requires 0 <= k < 6 => Shr(node, 2 * (5 - k)) % 256)
  }

  /** `_get_mac_address` as written: `node` is what `uuid.getnode()` gave
      (None when it raised). The k-th group from the right is
      `(node >> 2k) & 0xff`. */
  function MacAddress(node: Option<nat>): (r: string)
    ensures |r| == 17
    ensures ParseMac(r).Some?
    ensures node.Some? ==> forall k :: 0 <= k < 6 ==> ParseMac(r).value[5 - k] == Shr(node.value, 2 * k) % 256
    ensures node.None? ==> r == NoMac
  {
    if node.None? then
      NoMacIsZero();
      NoMac
    else
      var groups := MacGroups(node.value);
      MacStringRoundTrip(groups);
      assert forall k :: 0 <= k < 6 ==> groups[5 - k] == Shr(node.value, 2 * k) % 256;
      MacString(groups)
  }

  /** The fallback text is the text of six zero groups. */
  lemma NoMacIsZero()
    ensures MacString([0, 0, 0, 0, 0, 0]) == NoMac
    ensures ParseMac(NoMac) == Some([0, 0, 0, 0, 0, 0])
  {
    var parts := HexParts([0, 0, 0, 0, 0, 0]);
    assert Hex2(0) == "00";
    assert parts == ["00", "00", "00", "00", "00", "00"];
    JoinZeroPairs();
    MacStringRoundTrip([0, 0, 0, 0, 0, 0]);
  }

  lemma JoinZeroPairs()
    ensures Join(["00", "00", "00", "00", "00", "00"], ":") == NoMac
  {
    var z := "00";
    assert Join([z], ":") == "00";
    assert Join([z, z], ":") == "00:00" by { assert [z, z][1..] == [z]; }
    assert Join([z, z, z], ":") == "00:00:00" by { assert [z, z, z][1..] == [z, z]; }
    assert Join([z, z, z, z], ":") == "00:00:00:00" by { assert [z, z, z, z][1..] == [z, z, z]; }
    assert Join([z, z, z, z, z], ":") == "00:00:00:00:00" by { assert [z, z, z, z, z][1..] == [z, z, z, z]; }
    assert [z, z, z, z, z, z][1..] == [z, z, z, z, z];
  }

  /** The six bytes of a 48-bit node, most significant first. */
  function Octets(x: nat, n: nat): (r: seq<nat>)
    ensures |r| == n && Bytes(r)
  {
    if n == 0 then [] else Octets(x / 256, n - 1) + [x % 256]
  }

  /** The number whose bytes, most significant first, are `groups`. */
  function OctetsValue(groups: seq<nat>): nat {
    if groups == [] then 0 else OctetsValue(groups[..|groups| - 1]) * 256 + groups[|groups| - 1]
  }

  function Pow256(n: nat): nat {
    if n == 0 then 1 else 256 * Pow256(n - 1)
  }

  /** Bytes read back as the number they came from, when it fits. */
  lemma {:induction false} OctetsRoundTrip(x: nat, n: nat)
    ensures x < Pow256(n) ==> OctetsValue(Octets(x, n)) == x
  {
    if n > 0 && x < Pow256(n) {
      var r := Octets(x, n);
      assert r[..|r| - 1] == Octets(x / 256, n - 1);
      OctetsRoundTrip(x / 256, n - 1);
    }
  }

  /** The MAC text with 8-bit steps: the node's six bytes, most significant
      first. Every 48-bit node reads back from its text. */
  function MacAddressIntended(node: Option<nat>): (r: string)
    ensures |r| == 17
    ensures ParseMac(r).Some?
    ensures node.Some? && node.value < Pow256(6) ==> OctetsValue(ParseMac(r).value) == node.value
    ensures node.None? ==> r == NoMac
  {
    if node.None? then
      NoMacIsZero();
      NoMac
    else
      var groups := Octets(node.value, 6);
      MacStringRoundTrip(groups);
      OctetsRoundTrip(node.value, 6);
      MacString(groups)
  }

  /** Node ids that differ only above bit 17 get the same text as written,
      while the 8-bit reading tells them apart: 0 and 2^18 both print as
      all zeros. */
  lemma MacAsWrittenCollides()
    ensures MacAddress(Some(0)) == MacAddress(Some(262144))
    ensures MacAddressIntended(Some(0)) != MacAddressIntended(Some(262144))
  {
    HighBitsIgnored();
    Pow256Six();
    var zero, big := MacAddressIntended(Some(0)), MacAddressIntended(Some(262144));
    assert OctetsValue(ParseMac(zero).value) == 0;
    assert OctetsValue(ParseMac(big).value) == 262144;
  }

  lemma HighBitsIgnored()
    ensures MacGroups(262144) == MacGroups(0)
  {
    var big, zero := MacGroups(262144), MacGroups(0);
    forall k | 0 <= k < 6 ensures big[k] == zero[k] {
      ZeroShifts(2 * (5 - k));
      BigShiftsLowByte(5 - k);
    }
  }

  /** Every shift `_get_mac_address` applies leaves no low byte of 2^18. */
  lemma BigShiftsLowByte(e: nat)
    requires e < 6
    ensures Shr(262144, 2 * e) % 256 == 0
  {
    BigShifts();
    if e == 0 {
    } else if e == 1 {
    } else if e == 2 {
    } else if e == 3 {
    } else if e == 4 {
    } else {
    }
  }

  lemma BigShifts()
    ensures Shr(262144, 10) == 256 && Shr(262144, 8) == 1024 && Shr(262144, 6) == 4096
    ensures Shr(262144, 4) == 16384 && Shr(262144, 2) == 65536 && Shr(262144, 0) == 262144
  {
    ShrTwo(1024, 0);
    ShrTwo(4096, 0);
    ShrTwo(4096, 2);
    ShrTwo(16384, 0);
    ShrTwo(16384, 2);
    ShrTwo(16384, 4);
    ShrTwo(65536, 0);
    ShrTwo(65536, 2);
    ShrTwo(65536, 4);
    ShrTwo(65536, 6);
    ShrTwo(262144, 0);
    ShrTwo(262144, 2);
    ShrTwo(262144, 4);
    ShrTwo(262144, 6);
    ShrTwo(262144, 8);
  }

  /** Two more bits of shift divide by four first. */
  lemma ShrTwo(x: nat, b: nat)
    ensures Shr(x, b + 2) == Shr(x / 4, b)
  {
    assert Shr(x, b + 2) == Shr(x / 2, b + 1);
    assert x / 2 / 2 == x / 4;
  }

  lemma ZeroShifts(b: nat)
    ensures Shr(0, b) == 0
  {
  }

  lemma Pow256Six()
    ensures Pow256(6) == 281474976710656
  {
    assert Pow256(2) == 65536;
    assert Pow256(4) == 4294967296;
  }

  // ------------------------------------------------------------ uptime

  /** The `get_uptime` dict, or its error shape. */
  datatype Uptime =
    | Uptime(seconds: nat, formatted: string, days: nat, hours: nat, minutes: nat, secondsTotal: nat)
    | UptimeFailed(seconds: nat, formatted: string, error: string)

  /** `get_uptime` over whole seconds since boot (`elapsed`, or the message
      of the error reading it): the parts add back up to the seconds, with
      hours below a day and minutes and seconds below 60. */
  function GetUptime(elapsed: Result<nat, string>): (r: Uptime)
    ensures elapsed.Err? ==> r == UptimeFailed(0, "0秒", elapsed.error)
    ensures elapsed.Ok? ==> (r.Uptime? && r.seconds == elapsed.value
      && r.days * 86400 + r.hours * 3600 + r.minutes * 60 + r.secondsTotal == elapsed.value
      && r.hours < 24 && r.minutes < 60 && r.secondsTotal < 60)
  {
    match elapsed
    case Err(e) => UptimeFailed(0, "0秒", e)
    case Ok(n) =>
      var days, hours := n / 86400, (n % 86400) / 3600;
      var minutes, secs := (n % 3600) / 60, n % 60;
      UptimeArithmetic(n);
      Uptime(n, NatToString(days) + "天" + NatToString(hours) + "小时" + NatToString(minutes) + "分"
                + NatToString(secs) + "秒", days, hours, minutes, secs)
  }

  lemma UptimeArithmetic(n: nat)
    ensures (n / 86400) * 86400 + ((n % 86400) / 3600) * 3600 + ((n % 3600) / 60) * 60 + n % 60 == n
    ensures (n % 86400) / 3600 < 24
  {
    var d, r := n / 86400, n % 86400;
    var h, r2 := r / 3600, r % 3600;
    var m, s := r2 / 60, r2 % 60;
    SplitBy(n, 3600, d * 24 + h, r2);
    SplitBy(n, 60, (d * 24 + h) * 60 + m, s);
  }

  /** The split is the only one with hours below 24 and minutes and seconds below 60. */
  lemma UptimeUnique(n: nat, d: nat, h: nat, m: nat, s: nat)
    requires d * 86400 + h * 3600 + m * 60 + s == n
    requires h < 24 && m < 60 && s < 60
    ensures GetUptime(Ok(n)) == Uptime(n, GetUptime(Ok(n)).formatted, d, h, m, s)
  {
    SplitBy(n, 86400, d, h * 3600 + m * 60 + s);
    SplitBy(h * 3600 + m * 60 + s, 3600, h, m * 60 + s);
    SplitBy(n, 3600, d * 24 + h, m * 60 + s);
    SplitBy(m * 60 + s, 60, m, s);
    SplitBy(n, 60, (d * 24 + h) * 60 + m, s);
  }

  /** Quotient and remainder by a day, an hour or a minute are unique. */
  lemma SplitBy(n: int, k: int, q: int, r: int)
    requires k == 16 || k == 60 || k == 3600 || k == 86400
    requires 0 <= r < k && n == q * k + r
    ensures n / k == q && n % k == r
  {
  }

  // ------------------------------------------------------------ disks

  datatype Usage = Usage(total: nat, used: nat, free: nat)

  /** What `disk_usage` did for one mountpoint. */
  datatype UsageReply = Measured(usage: Usage) | PermissionDenied | NotFound | OtherError(message: string)

  datatype Partition = Partition(device: string, mountpoint: string, fstype: string, reply: UsageReply)

  datatype PartitionInfo = PartitionInfo(device: string, mountpoint: string, fstype: string, usage: Usage)

  /** The loop state of `get_disk_info`: the per-mountpoint map and the three running totals. */
  datatype Scan = Scan(partitions: map<string, PartitionInfo>, total: nat, used: nat, free: nat)

  /** `usage_percent` of the whole: no usage when there is no space at all,
      else `used / total * 100`. */
  datatype Percent = NoUsage | Ratio(used: nat, total: nat)

  datatype DiskReport =
    | DiskReport(partitions: map<string, PartitionInfo>, totalBytes: nat, usedBytes: nat, freeBytes: nat, usage: Percent)
    | DiskFailed(message: string)

  function Accessible(p: Partition): bool { p.reply.Measured? }

  /** The loop over the first partitions; an error other than a missing
      permission or a vanished mountpoint ends it. */
  function ScanOf(parts: seq<Partition>): Result<Scan, string> {
    if parts == [] then Ok(Scan(map[], 0, 0, 0))
    else
      var prev := ScanOf(parts[..|parts| - 1]);
      var p := parts[|parts| - 1];
      if prev.Err? then prev
      else match p.reply
        case Measured(u) =>
          var s := prev.value;
          Ok(Scan(s.partitions[p.mountpoint := PartitionInfo(p.device, p.mountpoint, p.fstype, u)],
                  s.total + u.total, s.used + u.used, s.free + u.free))
        case OtherError(m) => Err(m)
        case _ => prev
  }

  /** `get_disk_info` for a partition listing (or the error listing raised). */
  function DiskInfo(listing: Result<seq<Partition>, string>): DiskReport {
    if listing.Err? then DiskFailed(listing.error)
    else match ScanOf(listing.value)
      case Err(m) => DiskFailed(m)
      case Ok(s) => DiskReport(s.partitions, s.total, s.used, s.free, if s.total > 0 then Ratio(s.used, s.total) else NoUsage)
  }

  /** The loop of `get_disk_info`. */
  method GetDiskInfo(listing: Result<seq<Partition>, string>) returns (r: DiskReport)
    ensures r == DiskInfo(listing)
  {
    if listing.Err? {
      return DiskFailed(listing.error);
    }
    var parts := listing.value;
    var diskInfo: map<string, PartitionInfo> := map[];
    var totalSize: nat, totalUsed: nat, totalFree: nat := 0, 0, 0;
    var i := 0;
    while i < |parts|
      invariant 0 <= i <= |parts|
      invariant ScanOf(parts[..i]) == Ok(Scan(diskInfo, totalSize, totalUsed, totalFree))
    {
      assert parts[..i + 1][..i] == parts[..i];
      var p := parts[i];
      match p.reply {
        case Measured(u) =>
          diskInfo := diskInfo[p.mountpoint := PartitionInfo(p.device, p.mountpoint, p.fstype, u)];
          totalSize, totalUsed, totalFree := totalSize + u.total, totalUsed + u.used, totalFree + u.free;
        case OtherError(m) =>
          ScanStaysFailed(parts, i + 1);
          return DiskFailed(m);
        case _ =>
      }
      i := i + 1;
    }
    assert parts[..i] == parts;
    var overall := if totalSize > 0 then Ratio(totalUsed, totalSize) else NoUsage;
    r := DiskReport(diskInfo, totalSize, totalUsed, totalFree, overall);
  }

  /** Once the loop failed, later partitions do not matter. */
  lemma {:induction false} ScanStaysFailed(parts: seq<Partition>, i: nat)
    requires i <= |parts| && ScanOf(parts[..i]).Err?
    ensures ScanOf(parts) == ScanOf(parts[..i])
    decreases |parts| - i
  {
    if i < |parts| {
      assert parts[..i + 1][..i] == parts[..i];
      ScanStaysFailed(parts, i + 1);
    } else {
      assert parts[..i] == parts;
    }
  }

  /** The sum of one usage figure over the measured partitions, front to back. */
  function SumOver(parts: seq<Partition>, field: Usage -> nat): nat {
    if parts == [] then 0
    else (if Accessible(parts[0]) then field(parts[0].reply.usage) else 0) + SumOver(parts[1..], field)
  }

  lemma {:induction false} SumOverSnoc(parts: seq<Partition>, p: Partition, field: Usage -> nat)
    ensures SumOver(parts + [p], field) == SumOver(parts, field) + (if Accessible(p) then field(p.reply.usage) else 0)
  {
    if parts != [] {
      assert (parts + [p])[1..] == parts[1..] + [p];
      SumOverSnoc(parts[1..], p, field);
    } else {
      assert (parts + [p])[1..] == [];
    }
  }

  function TotalOf(u: Usage): nat { u.total }
  function UsedOf(u: Usage): nat { u.used }
  function FreeOf(u: Usage): nat { u.free }

  /** The scan completes exactly when no partition had an unexpected error. */
  lemma {:induction false} ScanCompletes(parts: seq<Partition>)
    ensures ScanOf(parts).Ok? <==> forall i :: 0 <= i < |parts| ==> !parts[i].reply.OtherError?
  {
    if parts != [] {
      var init := parts[..|parts| - 1];
      ScanCompletes(init);
      assert forall i :: 0 <= i < |init| ==> init[i] == parts[i];
    }
  }

  /** The totals of a completed scan are the sums over every measured
      partition; a repeated mountpoint counts each time. */
  lemma {:induction false} ScanTotals(parts: seq<Partition>)
    requires ScanOf(parts).Ok?
    ensures ScanOf(parts).value.total == SumOver(parts, TotalOf)
    ensures ScanOf(parts).value.used == SumOver(parts, UsedOf)
    ensures ScanOf(parts).value.free == SumOver(parts, FreeOf)
  {
    if parts != [] {
      var init, p := parts[..|parts| - 1], parts[|parts| - 1];
      assert parts == init + [p];
      ScanTotals(init);
      SumOverSnoc(init, p, TotalOf);
      SumOverSnoc(init, p, UsedOf);
      SumOverSnoc(init, p, FreeOf);
    }
  }

  /** The map of a completed scan holds exactly the measured mountpoints. */
  lemma {:induction false} ScanKeys(parts: seq<Partition>)
    requires ScanOf(parts).Ok?
    ensures forall mp :: mp in ScanOf(parts).value.partitions <==>
      exists i :: 0 <= i < |parts| && parts[i].mountpoint == mp && Accessible(parts[i])
  {
    if parts != [] {
      var init, p := parts[..|parts| - 1], parts[|parts| - 1];
      ScanKeys(init);
      forall mp | exists i :: 0 <= i < |parts| && parts[i].mountpoint == mp && Accessible(parts[i])
        ensures mp in ScanOf(parts).value.partitions
      {
        var i :| 0 <= i < |parts| && parts[i].mountpoint == mp && Accessible(parts[i]);
        if i < |init| {
          assert init[i] == parts[i];
        }
      }
      forall mp | mp in ScanOf(parts).value.partitions
        ensures exists i :: 0 <= i < |parts| && parts[i].mountpoint == mp && Accessible(parts[i])
      {
        if !(Accessible(p) && p.mountpoint == mp) {
          var i :| 0 <= i < |init| && init[i].mountpoint == mp && Accessible(init[i]);
          assert parts[i] == init[i];
        }
      }
    }
  }

  /** Each entry of a completed scan is the last measurement on its mountpoint. */
  lemma {:induction false} ScanLastWins(parts: seq<Partition>, mp: string)
    requires ScanOf(parts).Ok? && mp in ScanOf(parts).value.partitions
    ensures exists i :: (0 <= i < |parts| && parts[i].mountpoint == mp && Accessible(parts[i])
      && ScanOf(parts).value.partitions[mp] == PartitionInfo(parts[i].device, mp, parts[i].fstype, parts[i].reply.usage)
      && (forall j :: i < j < |parts| && parts[j].mountpoint == mp ==> !Accessible(parts[j])))
  {
    var init, p := parts[..|parts| - 1], parts[|parts| - 1];
    if Accessible(p) && p.mountpoint == mp {
      assert parts[|parts| - 1] == p;
    } else {
      ScanLastWins(init, mp);
      var i :| 0 <= i < |init| && init[i].mountpoint == mp && Accessible(init[i])
        && ScanOf(init).value.partitions[mp] == PartitionInfo(init[i].device, mp, init[i].fstype, init[i].reply.usage)
        && (forall j :: i < j < |init| && init[j].mountpoint == mp ==> !Accessible(init[j]));
      assert parts[i] == init[i];
      assert forall j :: i < j < |init| ==> parts[j] == init[j];
    }
  }

  /** The whole-disk usage is 0 exactly when there is no space at all. */
  lemma NoSpaceNoUsage(listing: Result<seq<Partition>, string>)
    ensures DiskInfo(listing).DiskReport? ==>
      (DiskInfo(listing).usage.NoUsage? <==> DiskInfo(listing).totalBytes == 0)
  {
  }

  /** Two measured partitions on one mountpoint: one map entry, the later
      one, but both counted in the totals. */
  lemma RepeatedMountpoint(a: Partition, b: Partition)
    requires a.mountpoint == b.mountpoint && a.reply.Measured? && b.reply.Measured?
    ensures ScanOf([a, b]).Ok?
    ensures ScanOf([a, b]).value.partitions == map[b.mountpoint := PartitionInfo(b.device, b.mountpoint, b.fstype, b.reply.usage)]
    ensures ScanOf([a, b]).value.total == a.reply.usage.total + b.reply.usage.total
  {
    assert [a, b][..1] == [a];
    assert [a][..0] == [];
    assert ScanOf([a]) == Ok(Scan(map[a.mountpoint := PartitionInfo(a.device, a.mountpoint, a.fstype, a.reply.usage)],
                                  a.reply.usage.total, a.reply.usage.used, a.reply.usage.free));
  }

  // ------------------------------------------------------------ load average

  /** `_get_load_average`: zeros on Windows or when the load cannot be read
      (`loadavg` None), otherwise each of the three figures `os.getloadavg()`
      gives, rounded by `round2`. */
  function LoadAverage(system: string, loadavg: Option<(real, real, real)>, round2: real -> real): (r: seq<real>)
    ensures |r| == 3
    ensures system == "Windows" || loadavg.None? ==> r == [0.0, 0.0, 0.0]
    ensures system != "Windows" && loadavg.Some? ==>
      r == [round2(loadavg.value.0), round2(loadavg.value.1), round2(loadavg.value.2)]
  {
    if system == "Windows" then [0.0, 0.0, 0.0]
    else match loadavg
      case None => [0.0, 0.0, 0.0]
      case Some((one, five, fifteen)) => [round2(one), round2(five), round2(fifteen)]
  }
}
