/**
 * The OVF descriptor helper of the secondary storage VM: it turns the
 * References/File entries and the DiskSection entries of a DMTF OVF
 * descriptor (DSP0243, section 9.1) into data-disk records, and it selects
 * which File, Disk and Item elements survive when the descriptor is
 * rewritten for one disk.
 *
 * The DOM is replaced by lists of records holding the attributes and the
 * child-element texts the helper reads. An absent attribute is the empty
 * string, as DOM's getAttribute returns it. Exceptions the helper lets
 * escape are the values of OvfError.
 */
module Ovf {
  import opened Base

  // ---------------------------------------------------------------------
  // The Java string and number primitives the helper relies on
  // ---------------------------------------------------------------------

  /** String.endsWith. */
  predicate EndsWith(s: string, suffix: string)
  {
    |suffix| <= |s| && s[|s| - |suffix|..] == suffix
  }

  predicate OccursAt(s: string, t: string, i: int)
  {
    0 <= i && i + |t| <= |s| && s[i..i + |t|] == t
  }

  /** String.contains. */
  predicate Contains(s: string, t: string)
  {
    exists i :: 0 <= i <= |s| - |t| && OccursAt(s, t, i)
  }

  function LowerAscii(c: char): char
  {
    if 'A' <= c <= 'Z' then (c as int + 32) as char else c
  }

  /** String.equalsIgnoreCase, on ASCII letters. */
  predicate EqualsIgnoreCase(a: string, b: string)
  {
    |a| == |b| && forall i :: 0 <= i < |a| ==> LowerAscii(a[i]) == LowerAscii(b[i])
  }

  function TrimStart(s: string): (r: string)
    ensures |r| <= |s| && r == s[|s| - |r|..]
    ensures |r| > 0 ==> r[0] > ' '
    decreases |s|
  {
    if |s| > 0 && s[0] <= ' ' then TrimStart(s[1..]) else s
  }

  function TrimEnd(s: string): (r: string)
    ensures |r| <= |s| && r == s[..|r|]
    ensures |r| > 0 ==> r[|r| - 1] > ' '
    decreases |s|
  {
    if |s| > 0 && s[|s| - 1] <= ' ' then TrimEnd(s[..|s| - 1]) else s
  }

  /** String.trim: drops the characters up to and including the space at both ends. */
  function Trim(s: string): string
  {
    TrimEnd(TrimStart(s))
  }

  /** Java's string concatenation writes a null reference as "null". */
  function NullText(s: Option<string>): string
  {
    if s.None? then "null" else s.value
  }

  const LONG_MIN: int := -0x8000_0000_0000_0000
  const LONG_MAX: int := 0x7FFF_FFFF_FFFF_FFFF

  predicate InLong(x: int)
  {
    LONG_MIN <= x <= LONG_MAX
  }

  /** A 64-bit two's complement result, as Java's long arithmetic wraps. */
  function WrapLong(x: int): (r: int)
    ensures InLong(r)
    ensures InLong(x) ==> r == x
    ensures (r - x) % 0x1_0000_0000_0000_0000 == 0
  {
    (x - LONG_MIN) % 0x1_0000_0000_0000_0000 + LONG_MIN
  }

  predicate IsDigit(c: char)
  {
    '0' <= c <= '9'
  }

  predicate AllDigits(s: string)
  {
    forall i :: 0 <= i < |s| ==> IsDigit(s[i])
  }

  function DigitsValue(s: string): nat
    requires AllDigits(s)
  {
    if |s| == 0 then 0 else DigitsValue(s[..|s| - 1]) * 10 + (s[|s| - 1] as int - '0' as int)
  }

  /** Long.parseLong: an optional sign and decimal digits whose value fits a long; None is a NumberFormatException. */
  function ParseLong(s: string): (r: Option<int>)
    ensures r.Some? ==> InLong(r.value)
    ensures s == "" ==> r.None?
  {
    var signed := |s| > 0 && (s[0] == '-' || s[0] == '+');
    var digits := if signed then s[1..] else s;
    if |digits| == 0 || !AllDigits(digits) then None
    else
      var v: int := if s[0] == '-' then -(DigitsValue(digits) as int) else DigitsValue(digits);
      if InLong(v) then Some(v) else None
  }

  // ---------------------------------------------------------------------
  // The descriptor and the records the helper builds
  // ---------------------------------------------------------------------

  /** A References/File element: ovf:href, ovf:id, ovf:size. */
  datatype FileEntry = FileEntry(href: string, id: string, size: string)

  /** A DiskSection/Disk element: ovf:capacity, ovf:capacityAllocationUnits, ovf:diskId, ovf:fileRef, ovf:populatedSize. */
  datatype DiskEntry = DiskEntry(capacity: string, allocationUnits: string, diskId: string, fileRef: string,
                                 populatedSize: string)

  /**
   * A virtual hardware Item: the texts of its rasd:InstanceID, rasd:Parent,
   * rasd:HostResource, rasd:ElementName and rasd:ResourceSubType children,
   * in document order.
   */
  datatype Item = Item(instanceIds: seq<string>, parents: seq<string>, hostResources: seq<string>,
                       elementNames: seq<string>, subTypes: seq<string>)

  /** The File, Disk and Item elements of a descriptor, each in document order. */
  datatype Descriptor = Descriptor(files: seq<FileEntry>, disks: seq<DiskEntry>, items: seq<Item>)

  /** The exceptions the helper lets escape. */
  datatype OvfError =
    | Unparseable        // the descriptor could not be read or parsed: CloudRuntimeException
    | BadNumber          // Long.parseLong refused an attribute: NumberFormatException
    | MissingParent      // the disk's item has no parent item: getController(null) throws NullPointerException
    | MissingController  // a file's disk has no controller: NullPointerException
    | ParentCycle        // the parent chain never ends: the source loops forever

  datatype Outcome<T> = Ok(value: T) | Fail(error: OvfError)

  datatype OvfFile = OvfFile(href: string, id: string, size: Option<int>, bootable: bool, iso: bool)

  /** A controller's rasd:ElementName and rasd:ResourceSubType; None when the item has none. */
  datatype Controller = Controller(name: Option<string>, subType: Option<string>)

  datatype OvfDisk = OvfDisk(capacity: int, diskId: string, fileRef: string, populatedSize: int,
                             controller: Option<Controller>)

  /** DatadiskTO: the path, virtual size, file size, file id, iso and bootable flags, and the controller. */
  datatype DataDisk = DataDisk(path: string, virtualSize: Option<int>, fileSize: Option<int>, id: string,
                               iso: bool, bootable: bool, controller: Option<string>, controllerSubType: Option<string>)

  function Last(texts: seq<string>): Option<string>
  {
    if |texts| == 0 then None else Some(texts[|texts| - 1])
  }

  // ---------------------------------------------------------------------
  // The controller of a disk: the parent chain walk
  // ---------------------------------------------------------------------

  predicate HasInstanceId(item: Item, id: string)
  {
    exists t :: t in item.instanceIds && Trim(t) == id
  }

  /** The first item from k on with an instance id (trimmed) equal to id. */
  function FindInstance(items: seq<Item>, id: string, k: nat): (r: Option<nat>)
    requires k <= |items|
    ensures r.Some? ==> k <= r.value < |items| && HasInstanceId(items[r.value], id)
                        && forall j :: k <= j < r.value ==> !HasInstanceId(items[j], id)
    ensures r.None? ==> forall j :: k <= j < |items| ==> !HasInstanceId(items[j], id)
    decreases |items| - k
  {
    if k == |items| then None
    else if HasInstanceId(items[k], id) then Some(k)
    else FindInstance(items, id, k + 1)
  }

  /**
   * getParentNode: the first item whose instance id is the text of the
   * item's last rasd:Parent; None when it has no parent or none matches.
   */
  function ParentOf(items: seq<Item>, i: nat): (r: Option<nat>)
    requires i < |items|
    ensures r.Some? ==> r.value < |items|
  {
    match Last(items[i].parents)
    case None => None
    case Some(pid) => FindInstance(items, pid, 0)
  }

  predicate Mentions(text: string, diskId: string)
  {
    Contains(text, "ovf:/file/" + diskId) || Contains(text, "ovf:/disk/" + diskId)
  }

  predicate Hosts(item: Item, diskId: string)
  {
    exists h :: h in item.hostResources && Mentions(h, diskId)
  }

  /** The first item from k on whose host resource names the disk. */
  function FindHost(items: seq<Item>, diskId: string, k: nat): (r: Option<nat>)
    requires k <= |items|
    ensures r.Some? ==> k <= r.value < |items| && Hosts(items[r.value], diskId)
                        && forall j :: k <= j < r.value ==> !Hosts(items[j], diskId)
    ensures r.None? ==> forall j :: k <= j < |items| ==> !Hosts(items[j], diskId)
    decreases |items| - k
  {
    if k == |items| then None
    else if Hosts(items[k], diskId) then Some(k)
    else FindHost(items, diskId, k + 1)
  }

  /** The item n parent steps above item i, if the chain is that long. */
  function Chain(items: seq<Item>, i: nat, n: nat): (r: Option<nat>)
    requires i < |items|
    ensures r.Some? ==> r.value < |items|
    decreases n
  {
    if n == 0 then Some(i)
    else match ParentOf(items, i)
      case None => None
      case Some(p) => Chain(items, p, n - 1)
  }

  /** The end of the chain from item i within fuel steps, an item without a parent. */
  function RootFrom(items: seq<Item>, i: nat, fuel: nat): (r: Option<nat>)
    requires i < |items|
    ensures r.Some? ==> r.value < |items| && ParentOf(items, r.value).None?
    decreases fuel
  {
    match ParentOf(items, i)
    case None => Some(i)
    case Some(p) => if fuel == 0 then None else RootFrom(items, p, fuel - 1)
  }

  /** getController: the last element name and resource subtype of the item. */
  function ControllerOf(item: Item): Controller
  {
    Controller(Last(item.elementNames), Last(item.subTypes))
  }

  /** getControllerType: None when no item hosts the disk, else the controller at the top of the chain above its item. */
  function ControllerTypeSpec(items: seq<Item>, diskId: string): Outcome<Option<Controller>>
  {
    match FindHost(items, diskId, 0)
    case None => Ok(None)
    case Some(k) =>
      match ParentOf(items, k)
      case None => Fail(MissingParent)
      case Some(p) =>
        match RootFrom(items, p, |items|)
        case None => Fail(ParentCycle)
        case Some(root) => Ok(Some(ControllerOf(items[root])))
  }

  /** getControllerType's walk up the parent chain, bounded by the number of items. */
  method ControllerType(items: seq<Item>, diskId: string) returns (r: Outcome<Option<Controller>>)
    ensures r == ControllerTypeSpec(items, diskId)
  {
    var host := FindHost(items, diskId, 0);
    if host.None? {
      return Ok(None);
    }
    var oe := ParentOf(items, host.value);
    if oe.None? {
      return Fail(MissingParent);
    }
    var start := oe.value;
    var voe: nat := start;
    var fuel: nat := |items|;
    oe := ParentOf(items, voe);
    while oe.Some?
      invariant voe < |items| && oe == ParentOf(items, voe)
      invariant RootFrom(items, start, |items|) == RootFrom(items, voe, fuel)
      decreases fuel
    {
      if fuel == 0 {
        return Fail(ParentCycle);
      }
      voe := oe.value;
      fuel := fuel - 1;
      oe := ParentOf(items, voe);
    }
    return Ok(Some(ControllerOf(items[voe])));
  }

  /** The end the walk finds is on the chain. */
  lemma {:induction false} RootFromReached(items: seq<Item>, i: nat, fuel: nat)
    requires i < |items|
    ensures RootFrom(items, i, fuel).Some? ==> exists n: nat :: n <= fuel && Chain(items, i, n) == RootFrom(items, i, fuel)
    decreases fuel
  {
    match ParentOf(items, i)
    case None =>
      assert Chain(items, i, 0) == Some(i);
    case Some(p) =>
      if fuel > 0 && RootFrom(items, p, fuel - 1).Some? {
        RootFromReached(items, p, fuel - 1);
        var n: nat :| n <= fuel - 1 && Chain(items, p, n) == RootFrom(items, p, fuel - 1);
        assert Chain(items, i, n + 1) == Chain(items, p, n);
      }
  }

  /** A walk that runs out of fuel passed fuel + 1 parents. */
  lemma {:induction false} ChainLongWithoutRoot(items: seq<Item>, i: nat, fuel: nat, n: nat)
    requires i < |items| && RootFrom(items, i, fuel).None? && n <= fuel + 1
    ensures Chain(items, i, n).Some?
    decreases fuel
  {
    if n > 0 {
      var p := ParentOf(items, i).value;
      if fuel > 0 {
        ChainLongWithoutRoot(items, p, fuel - 1, n - 1);
      }
    }
  }

  lemma {:induction false} ChainShift(items: seq<Item>, i: nat, a: nat, m: nat)
    requires i < |items| && Chain(items, i, a).Some?
    ensures Chain(items, i, a + m) == Chain(items, Chain(items, i, a).value, m)
    decreases a
  {
    if a > 0 {
      var p := ParentOf(items, i).value;
      ChainShift(items, p, a - 1, m);
    }
  }

  lemma {:induction false} ChainPrefix(items: seq<Item>, i: nat, a: nat, b: nat)
    requires i < |items| && a <= b && Chain(items, i, b).Some?
    ensures Chain(items, i, a).Some?
    decreases a
  {
    if a > 0 {
      var p := ParentOf(items, i).value;
      ChainPrefix(items, p, a - 1, b - 1);
    }
  }

  /** An item its own chain returns to has parents without end. */
  lemma {:induction false} CycleNeverEnds(items: seq<Item>, j: nat, period: nat, n: nat)
    requires j < |items| && period > 0 && Chain(items, j, period) == Some(j)
    ensures Chain(items, j, n).Some?
    decreases n
  {
    if n <= period {
      ChainPrefix(items, j, n, period);
    } else {
      ChainShift(items, j, period, n - period);
      CycleNeverEnds(items, j, period, n - period);
    }
  }

  function ChainOr(items: seq<Item>, i: nat, n: nat): (r: nat)
    requires i < |items|
    ensures r < |items|
  {
    match Chain(items, i, n)
    case None => i
    case Some(j) => j
  }

  /**
   * The walk bounded by the number of items reports a cycle exactly when
   * the source's unbounded loop never ends: every item of the chain has a
   * parent.
   */
  lemma ParentWalkEndsIffAcyclic(items: seq<Item>, i: nat)
    requires i < |items|
    ensures RootFrom(items, i, |items|).None? <==> forall n :: Chain(items, i, n).Some?
  {
    if RootFrom(items, i, |items|).Some? {
      RootFromReached(items, i, |items|);
      var n: nat :| n <= |items| && Chain(items, i, n) == RootFrom(items, i, |items|);
      ChainShift(items, i, n, 1);
      assert Chain(items, i, n + 1).None?;
    } else {
      NoRootMeansEndless(items, i);
    }
  }

  lemma NoRootMeansEndless(items: seq<Item>, i: nat)
    requires i < |items| && RootFrom(items, i, |items|).None?
    ensures forall n :: Chain(items, i, n).Some?
  {
    var a, b := ChainRepeats(items, i);
    var j := Chain(items, i, a).value;
    ChainShift(items, i, a, b - a);
    forall n: nat
      ensures Chain(items, i, n).Some?
    {
      if n > a {
        ChainShift(items, i, a, n - a);
        CycleNeverEnds(items, j, b - a, n - a);
      } else {
        ChainLongWithoutRoot(items, i, |items|, n);
      }
    }
  }

  /** A walk without an end within the number of items visits some item twice. */
  lemma ChainRepeats(items: seq<Item>, i: nat) returns (a: nat, b: nat)
    requires i < |items| && RootFrom(items, i, |items|).None?
    ensures a < b <= |items| && Chain(items, i, a).Some? && Chain(items, i, a) == Chain(items, i, b)
  {
    forall n: nat | n <= |items| + 1
      ensures Chain(items, i, n).Some?
    {
      ChainLongWithoutRoot(items, i, |items|, n);
    }
    var s := seq(|items| + 1, (k: int) requires 0 <= k => ChainOr(items, i, k));
    Pigeonhole(s, |items|);
    a, b :| 0 <= a < b < |s| && s[a] == s[b];
    assert Chain(items, i, a).Some? && Chain(items, i, b).Some?;
  }

  function Values(s: seq<nat>): set<nat>
  {
    if |s| == 0 then {} else Values(s[..|s| - 1]) + {s[|s| - 1]}
  }

  lemma {:induction false} ValuesMembers(s: seq<nat>)
    ensures forall v :: v in Values(s) <==> exists k :: 0 <= k < |s| && s[k] == v
  {
    if |s| > 0 {
      var t := s[..|s| - 1];
      ValuesMembers(t);
      assert forall k :: 0 <= k < |t| ==> t[k] == s[k];
    }
  }

  lemma {:induction false} DistinctValues(s: seq<nat>)
    requires forall a, b :: 0 <= a < b < |s| ==> s[a] != s[b]
    ensures |Values(s)| == |s|
  {
    if |s| > 0 {
      var t := s[..|s| - 1];
      DistinctValues(t);
      ValuesMembers(t);
      assert s[|s| - 1] !in Values(t);
    }
  }

  lemma {:induction false} BoundedCard(vals: set<nat>, bound: nat)
    requires forall v :: v in vals ==> v < bound
    ensures |vals| <= bound
    decreases bound
  {
    if bound == 0 {
      assert vals == {};
    } else {
      BoundedCard(vals - {bound - 1}, bound - 1);
    }
  }

  lemma Pigeonhole(s: seq<nat>, bound: nat)
    requires bound < |s| && forall k :: 0 <= k < |s| ==> s[k] < bound
    ensures exists a, b :: 0 <= a < b < |s| && s[a] == s[b]
  {
    if forall a, b :: 0 <= a < b < |s| ==> s[a] != s[b] {
      DistinctValues(s);
      ValuesMembers(s);
      BoundedCard(Values(s), bound);
      assert false;
    }
  }

  // ---------------------------------------------------------------------
  // getOVFVolumeInfo: the File loop
  // ---------------------------------------------------------------------

  /** Only File entries whose href ends in "vmdk" or "iso" become data disks. */
  predicate Accepted(f: FileEntry)
  {
    EndsWith(f.href, "vmdk") || EndsWith(f.href, "iso")
  }

  /** The accepted File entries, in document order. */
  function AcceptedEntries(files: seq<FileEntry>): (r: seq<FileEntry>)
    ensures forall f :: f in r <==> f in files && Accepted(f)
  {
    if |files| == 0 then []
    else
      var f := files[|files| - 1];
      assert files == files[..|files| - 1] + [f];
      AcceptedEntries(files[..|files| - 1]) + (if Accepted(f) then [f] else [])
  }

  /** A size attribute that is present but not a long. */
  predicate BadSize(size: string)
  {
    size != "" && ParseLong(size).None?
  }

  /** The file size: null when the attribute is absent. */
  function SizeValue(size: string): Option<int>
  {
    if size == "" then None else ParseLong(size)
  }

  /** The File loop over a prefix of the entries; the bootable toggle is still set while no file was accepted. */
  function ReadFiles(files: seq<FileEntry>): Outcome<seq<OvfFile>>
  {
    if |files| == 0 then Ok([])
    else match ReadFiles(files[..|files| - 1])
      case Fail(e) => Fail(e)
      case Ok(vf) =>
        var f := files[|files| - 1];
        if !Accepted(f) then Ok(vf)
        else if BadSize(f.size) then Fail(BadNumber)
        else Ok(vf + [OvfFile(f.href, f.id, SizeValue(f.size), |vf| == 0, EndsWith(f.href, "iso"))])
  }

  lemma {:induction false} ReadFilesStops(files: seq<FileEntry>, j: nat)
    requires j <= |files| && ReadFiles(files[..j]).Fail?
    ensures ReadFiles(files) == ReadFiles(files[..j])
    decreases |files|
  {
    if j < |files| {
      var init := files[..|files| - 1];
      assert init[..j] == files[..j];
      ReadFilesStops(init, j);
    } else {
      assert files[..j] == files;
    }
  }

  /** getOVFVolumeInfo's File loop with its bootable toggle. */
  method CollectFiles(files: seq<FileEntry>) returns (r: Outcome<seq<OvfFile>>)
    ensures r == ReadFiles(files)
  {
    var vf: seq<OvfFile> := [];
    var toggle := true;
    var j := 0;
    while j < |files|
      invariant 0 <= j <= |files|
      invariant ReadFiles(files[..j]) == Ok(vf)
      invariant toggle <==> |vf| == 0
    {
      var f := files[j];
      assert files[..j + 1][..j] == files[..j];
      if Accepted(f) {
        var size: Option<int> := None;
        if f.size != "" {
          size := ParseLong(f.size);
          if size.None? {
            ReadFilesStops(files, j + 1);
            return Fail(BadNumber);
          }
        }
        var bootable := false;
        if toggle {
          bootable := true;
          toggle := !toggle;
        }
        vf := vf + [OvfFile(f.href, f.id, size, bootable, EndsWith(f.href, "iso"))];
      }
      j := j + 1;
    }
    assert files[..j] == files;
    return Ok(vf);
  }

  /**
   * The File loop keeps exactly the accepted entries in document order,
   * marks the first of them bootable and no other, flags an iso exactly
   * when the href ends in "iso", and fails exactly when an accepted entry
   * has a size that is not a long.
   */
  lemma {:induction false} ReadFilesProperties(files: seq<FileEntry>)
    ensures ReadFiles(files).Ok? ==>
              var vf := ReadFiles(files).value;
              var acc := AcceptedEntries(files);
              |vf| == |acc|
              && forall i :: 0 <= i < |vf| ==>
                   vf[i].href == acc[i].href && vf[i].id == acc[i].id && vf[i].size == SizeValue(acc[i].size)
                   && (vf[i].bootable <==> i == 0) && (vf[i].iso <==> EndsWith(acc[i].href, "iso"))
    ensures ReadFiles(files).Fail? <==> exists j :: 0 <= j < |files| && Accepted(files[j]) && BadSize(files[j].size)
  {
    if |files| > 0 {
      var init := files[..|files| - 1];
      ReadFilesProperties(init);
      assert forall j :: 0 <= j < |init| ==> init[j] == files[j];
    }
  }

  // ---------------------------------------------------------------------
  // getOVFVolumeInfo: the Disk loop and the capacity units
  // ---------------------------------------------------------------------

  /** The allocation-unit multiplier: the DSP0004 programmatic units and their short and long names, case-insensitively. */
  function Multiplier(units: string): int
  {
    if EqualsIgnoreCase(units, "KB") || EqualsIgnoreCase(units, "KiloBytes") || EqualsIgnoreCase(units, "byte * 2^10") then 1024
    else if EqualsIgnoreCase(units, "MB") || EqualsIgnoreCase(units, "MegaBytes") || EqualsIgnoreCase(units, "byte * 2^20") then 1024 * 1024
    else if EqualsIgnoreCase(units, "GB") || EqualsIgnoreCase(units, "GigaBytes") || EqualsIgnoreCase(units, "byte * 2^30") then 1024 * 1024 * 1024
    else 1
  }

  /** A nonzero capacity is scaled by the multiplier in long arithmetic. */
  function Scale(capacity: int, units: string): int
  {
    if capacity != 0 then WrapLong(capacity * Multiplier(units)) else capacity
  }

  /**
   * The capacity rules: zero is never scaled, the multiplier is one of
   * 1, 2^10, 2^20 and 2^30, each unit name selects its power whatever its
   * case, and a product that fits a long is the exact product.
   */
  lemma ScaleRules(capacity: int, units: string)
    ensures Scale(0, units) == 0
    ensures Multiplier(units) in {1, 1024, 1048576, 1073741824}
    ensures InLong(capacity * Multiplier(units)) ==> Scale(capacity, units) == capacity * Multiplier(units)
    ensures EqualsIgnoreCase(units, "byte * 2^10") ==> Multiplier(units) == 1024
    ensures EqualsIgnoreCase(units, "byte * 2^20") || EqualsIgnoreCase(units, "megabytes") ==> Multiplier(units) == 1048576
    ensures EqualsIgnoreCase(units, "byte * 2^30") || EqualsIgnoreCase(units, "gb") ==> Multiplier(units) == 1073741824
  {
    if EqualsIgnoreCase(units, "byte * 2^20") {
      assert LowerAscii(units[9]) == '2';
    }
    if EqualsIgnoreCase(units, "megabytes") {
      assert LowerAscii(units[0]) == 'm';
    }
    if EqualsIgnoreCase(units, "byte * 2^30") {
      assert LowerAscii(units[9]) == '3';
    }
    if EqualsIgnoreCase(units, "gb") {
      assert LowerAscii(units[0]) == 'g';
    }
  }

  /** Unit names that differ only in the case of their letters select the same multiplier. */
  lemma MultiplierIgnoresCase(u: string, v: string)
    requires EqualsIgnoreCase(u, v)
    ensures Multiplier(u) == Multiplier(v)
  {
    forall w: string
      ensures EqualsIgnoreCase(u, w) <==> EqualsIgnoreCase(v, w)
    {
    }
  }

  /** The capacity attribute: zero when absent. */
  function CapacityValue(capacity: string): Option<int>
  {
    if capacity == "" then Some(0) else ParseLong(capacity)
  }

  /** One Disk entry: its capacity, its populated size (which must be present), the scaling, and its controller. */
  function ReadDisk(d: DiskEntry, items: seq<Item>): Outcome<OvfDisk>
  {
    var capacity := CapacityValue(d.capacity);
    var populated := ParseLong(d.populatedSize);
    if capacity.None? || populated.None? then Fail(BadNumber)
    else match ControllerTypeSpec(items, d.diskId)
      case Fail(e) => Fail(e)
      case Ok(c) => Ok(OvfDisk(Scale(capacity.value, d.allocationUnits), d.diskId, d.fileRef, populated.value, c))
  }

  /** The Disk loop over a prefix of the entries. */
  function ReadDisks(disks: seq<DiskEntry>, items: seq<Item>): Outcome<seq<OvfDisk>>
  {
    if |disks| == 0 then Ok([])
    else match ReadDisks(disks[..|disks| - 1], items)
      case Fail(e) => Fail(e)
      case Ok(vd) =>
        match ReadDisk(disks[|disks| - 1], items)
        case Fail(e) => Fail(e)
        case Ok(od) => Ok(vd + [od])
  }

  lemma {:induction false} ReadDisksStops(disks: seq<DiskEntry>, items: seq<Item>, j: nat)
    requires j <= |disks| && ReadDisks(disks[..j], items).Fail?
    ensures ReadDisks(disks, items) == ReadDisks(disks[..j], items)
    decreases |disks|
  {
    if j < |disks| {
      var init := disks[..|disks| - 1];
      assert init[..j] == disks[..j];
      ReadDisksStops(init, items, j);
    } else {
      assert disks[..j] == disks;
    }
  }

  /** getOVFVolumeInfo's Disk loop. */
  method CollectDisks(disks: seq<DiskEntry>, items: seq<Item>) returns (r: Outcome<seq<OvfDisk>>)
    ensures r == ReadDisks(disks, items)
  {
    var vd: seq<OvfDisk> := [];
    var i := 0;
    while i < |disks|
      invariant 0 <= i <= |disks|
      invariant ReadDisks(disks[..i], items) == Ok(vd)
    {
      var d := disks[i];
      assert disks[..i + 1][..i] == disks[..i];
      var capacity := if d.capacity == "" then Some(0) else ParseLong(d.capacity);
      if capacity.None? {
        ReadDisksStops(disks, items, i + 1);
        return Fail(BadNumber);
      }
      var populated := ParseLong(d.populatedSize);
      if populated.None? {
        ReadDisksStops(disks, items, i + 1);
        return Fail(BadNumber);
      }
      var scaled := capacity.value;
      if scaled != 0 {
        scaled := WrapLong(scaled * Multiplier(d.allocationUnits));
      }
      var controller := ControllerType(items, d.diskId);
      if controller.Fail? {
        ReadDisksStops(disks, items, i + 1);
        return Fail(controller.error);
      }
      vd := vd + [OvfDisk(scaled, d.diskId, d.fileRef, populated.value, controller.value)];
      i := i + 1;
    }
    assert disks[..i] == disks;
    return Ok(vd);
  }

  /** The Disk loop reads every entry in order, and fails exactly when some entry fails. */
  lemma ReadDisksProperties(disks: seq<DiskEntry>, items: seq<Item>)
    ensures ReadDisks(disks, items).Ok? ==>
              var vd := ReadDisks(disks, items).value;
              |vd| == |disks| && forall i :: 0 <= i < |vd| ==> ReadDisk(disks[i], items) == Ok(vd[i])
    ensures ReadDisks(disks, items).Fail? <==> exists i :: 0 <= i < |disks| && ReadDisk(disks[i], items).Fail?
  {
    ReadDisksRead(disks, items);
    ReadDisksFail(disks, items);
  }

  lemma {:induction false} ReadDisksRead(disks: seq<DiskEntry>, items: seq<Item>)
    ensures ReadDisks(disks, items).Ok? ==>
              var vd := ReadDisks(disks, items).value;
              |vd| == |disks| && forall i :: 0 <= i < |vd| ==> ReadDisk(disks[i], items) == Ok(vd[i])
  {
    if |disks| > 0 && ReadDisks(disks, items).Ok? {
      var init := disks[..|disks| - 1];
      ReadDisksRead(init, items);
      var rest := ReadDisks(init, items);
      var one := ReadDisk(disks[|disks| - 1], items);
      ReadDisksStep(disks, items);
      assert forall j :: 0 <= j < |init| ==> init[j] == disks[j];
    }
  }

  /** One step of the Disk loop: the entries before the last, then the last. */
  lemma ReadDisksStep(disks: seq<DiskEntry>, items: seq<Item>)
    requires |disks| > 0
    ensures var rest := ReadDisks(disks[..|disks| - 1], items);
            var one := ReadDisk(disks[|disks| - 1], items);
            (ReadDisks(disks, items).Fail? <==> rest.Fail? || one.Fail?)
            && (ReadDisks(disks, items).Ok? ==> rest.Ok? && one.Ok? && ReadDisks(disks, items).value == rest.value + [one.value])
  {
  }

  lemma {:induction false} ReadDisksFail(disks: seq<DiskEntry>, items: seq<Item>)
    ensures ReadDisks(disks, items).Fail? <==> exists i :: 0 <= i < |disks| && ReadDisk(disks[i], items).Fail?
  {
    if |disks| > 0 {
      var init := disks[..|disks| - 1];
      ReadDisksFail(init, items);
      var rest := ReadDisks(init, items);
      var one := ReadDisk(disks[|disks| - 1], items);
      ReadDisksStep(disks, items);
      if rest.Fail? {
        var i :| 0 <= i < |init| && ReadDisk(init[i], items).Fail?;
        assert init[i] == disks[i];
      } else if !one.Fail? {
        forall i | 0 <= i < |disks| ensures ReadDisk(disks[i], items).Ok? {
          if i < |init| {
            assert init[i] == disks[i];
          }
        }
      }
    }
  }

  /**
   * One Disk entry's record: an absent capacity is zero, a nonzero one is
   * scaled by its units, the populated size is required, and the
   * controller is the top of the parent chain above the item hosting it.
   */
  lemma ReadDiskRules(d: DiskEntry, items: seq<Item>)
    ensures ReadDisk(d, items).Ok? ==>
              var od := ReadDisk(d, items).value;
              (d.capacity == "" ==> od.capacity == 0)
              && (d.capacity != "" ==> od.capacity == Scale(ParseLong(d.capacity).value, d.allocationUnits))
              && Some(od.populatedSize) == ParseLong(d.populatedSize)
              && od.diskId == d.diskId && od.fileRef == d.fileRef
              && Ok(od.controller) == ControllerTypeSpec(items, d.diskId)
    ensures d.populatedSize == "" ==> ReadDisk(d, items) == Fail(BadNumber)
  {
  }

  // ---------------------------------------------------------------------
  // getDisk and the records getOVFVolumeInfo returns
  // ---------------------------------------------------------------------

  /** getDisk: the first disk whose fileRef is the file id, or null. */
  function FindDisk(fileRef: string, disks: seq<OvfDisk>): (r: Option<OvfDisk>)
    ensures r.None? <==> forall i :: 0 <= i < |disks| ==> disks[i].fileRef != fileRef
    ensures r.Some? ==> exists i :: 0 <= i < |disks| && disks[i] == r.value && disks[i].fileRef == fileRef
                                    && forall j :: 0 <= j < i ==> disks[j].fileRef != fileRef
  {
    if |disks| == 0 then None
    else if disks[0].fileRef == fileRef then
      assert disks[0] == disks[0];
      Some(disks[0])
    else
      var r := FindDisk(fileRef, disks[1..]);
      assert forall i :: 1 <= i < |disks| ==> disks[i] == disks[1..][i - 1];
      if r.Some? then
        var i :| 0 <= i < |disks[1..]| && disks[1..][i] == r.value && disks[1..][i].fileRef == fileRef
                 && forall j :: 0 <= j < i ==> disks[1..][j].fileRef != fileRef;
        assert disks[i + 1] == r.value;
        r
      else r
  }

  /** getDisk's scan. */
  method GetDisk(fileRef: string, disks: seq<OvfDisk>) returns (r: Option<OvfDisk>)
    ensures r == FindDisk(fileRef, disks)
  {
    var i := 0;
    while i < |disks|
      invariant 0 <= i <= |disks|
      invariant FindDisk(fileRef, disks) == FindDisk(fileRef, disks[i..])
    {
      assert disks[i..][1..] == disks[i + 1..];
      if disks[i].fileRef == fileRef {
        return Some(disks[i]);
      }
      i := i + 1;
    }
    return None;
  }

  /** The directory part of the descriptor path and the separator, then the file name. */
  function DiskPath(dir: Option<string>, href: string): string
  {
    NullText(dir) + "/" + href
  }

  /** The record of one accepted file: from its disk when one has its id, from the file alone otherwise. */
  function ToDataDisk(f: OvfFile, vd: seq<OvfDisk>, dir: Option<string>): Outcome<DataDisk>
  {
    match FindDisk(f.id, vd)
    case None => Ok(DataDisk(DiskPath(dir, f.href), f.size, f.size, f.id, f.iso, f.bootable, Some(""), Some("")))
    case Some(d) =>
      match d.controller
      case None => Fail(MissingController)
      case Some(c) =>
        Ok(DataDisk(DiskPath(dir, f.href), Some(d.capacity), f.size, f.id, f.iso, f.bootable, c.name, c.subType))
  }

  /** The output loop over a prefix of the accepted files. */
  function DataDisks(vf: seq<OvfFile>, vd: seq<OvfDisk>, dir: Option<string>): Outcome<seq<DataDisk>>
  {
    if |vf| == 0 then Ok([])
    else match DataDisks(vf[..|vf| - 1], vd, dir)
      case Fail(e) => Fail(e)
      case Ok(ds) =>
        match ToDataDisk(vf[|vf| - 1], vd, dir)
        case Fail(e) => Fail(e)
        case Ok(x) => Ok(ds + [x])
  }

  lemma {:induction false} DataDisksStops(vf: seq<OvfFile>, vd: seq<OvfDisk>, dir: Option<string>, j: nat)
    requires j <= |vf| && DataDisks(vf[..j], vd, dir).Fail?
    ensures DataDisks(vf, vd, dir) == DataDisks(vf[..j], vd, dir)
    decreases |vf|
  {
    if j < |vf| {
      var init := vf[..|vf| - 1];
      assert init[..j] == vf[..j];
      DataDisksStops(init, vd, dir, j);
    } else {
      assert vf[..j] == vf;
    }
  }

  /** getOVFVolumeInfo's output loop. */
  method BuildDataDisks(vf: seq<OvfFile>, vd: seq<OvfDisk>, dir: Option<string>) returns (r: Outcome<seq<DataDisk>>)
    ensures r == DataDisks(vf, vd, dir)
  {
    var disksTo: seq<DataDisk> := [];
    var j := 0;
    while j < |vf|
      invariant 0 <= j <= |vf|
      invariant DataDisks(vf[..j], vd, dir) == Ok(disksTo)
    {
      var f := vf[j];
      assert vf[..j + 1][..j] == vf[..j];
      var cdisk := GetDisk(f.id, vd);
      var record: DataDisk;
      if cdisk.None? {
        record := DataDisk(DiskPath(dir, f.href), f.size, f.size, f.id, f.iso, f.bootable, Some(""), Some(""));
      } else if cdisk.value.controller.None? {
        DataDisksStops(vf, vd, dir, j + 1);
        return Fail(MissingController);
      } else {
        var c := cdisk.value.controller.value;
        record := DataDisk(DiskPath(dir, f.href), Some(cdisk.value.capacity), f.size, f.id, f.iso, f.bootable,
                           c.name, c.subType);
      }
      disksTo := disksTo + [record];
      j := j + 1;
    }
    assert vf[..j] == vf;
    return Ok(disksTo);
  }

  /** The output loop makes one record per accepted file, in order, and fails exactly when one fails. */
  lemma {:induction false} DataDisksProperties(vf: seq<OvfFile>, vd: seq<OvfDisk>, dir: Option<string>)
    ensures DataDisks(vf, vd, dir).Ok? ==>
              var ds := DataDisks(vf, vd, dir).value;
              |ds| == |vf| && forall i :: 0 <= i < |ds| ==> ToDataDisk(vf[i], vd, dir) == Ok(ds[i])
    ensures DataDisks(vf, vd, dir).Fail? <==> exists i :: 0 <= i < |vf| && ToDataDisk(vf[i], vd, dir).Fail?
  {
    if |vf| > 0 {
      var init := vf[..|vf| - 1];
      DataDisksProperties(init, vd, dir);
      assert forall j :: 0 <= j < |init| ==> init[j] == vf[j];
    }
  }

  /**
   * One record: the path is the descriptor's directory, the separator and
   * the href; without a disk for the file its capacity is the file size
   * and its controller is empty, with one it is the disk's capacity and
   * controller; a disk without a controller is an error.
   */
  lemma ToDataDiskRules(f: OvfFile, vd: seq<OvfDisk>, dir: Option<string>)
    ensures ToDataDisk(f, vd, dir).Fail? <==> FindDisk(f.id, vd).Some? && FindDisk(f.id, vd).value.controller.None?
    ensures ToDataDisk(f, vd, dir).Ok? ==>
              var x := ToDataDisk(f, vd, dir).value;
              x.path == NullText(dir) + "/" + f.href && x.id == f.id && x.fileSize == f.size
              && x.iso == f.iso && x.bootable == f.bootable
              && (FindDisk(f.id, vd).None? ==> x.virtualSize == f.size && x.controller == Some("") && x.controllerSubType == Some(""))
              && (FindDisk(f.id, vd).Some? ==>
                    x.virtualSize == Some(FindDisk(f.id, vd).value.capacity)
                    && x.controller == FindDisk(f.id, vd).value.controller.value.name
                    && x.controllerSubType == FindDisk(f.id, vd).value.controller.value.subType)
  {
  }

  // ---------------------------------------------------------------------
  // getOVFVolumeInfo
  // ---------------------------------------------------------------------

  datatype VolumeInfo = NoDescriptor | Volumes(disks: seq<DataDisk>) | VolumeError(error: OvfError)

  /**
   * getOVFVolumeInfo on a descriptor path (None is null), the parsed
   * descriptor (None when it cannot be read or parsed) and the path's
   * parent directory (None when the path has none).
   */
  function VolumeInfoSpec(path: Option<string>, doc: Option<Descriptor>, dir: Option<string>): VolumeInfo
  {
    if path.None? || path.value == "" then NoDescriptor
    else if doc.None? then VolumeError(Unparseable)
    else match ReadFiles(doc.value.files)
      case Fail(e) => VolumeError(e)
      case Ok(vf) =>
        match ReadDisks(doc.value.disks, doc.value.items)
        case Fail(e) => VolumeError(e)
        case Ok(vd) =>
          match DataDisks(vf, vd, dir)
          case Fail(e) => VolumeError(e)
          case Ok(ds) => Volumes(ds)
  }

  method GetOvfVolumeInfo(path: Option<string>, doc: Option<Descriptor>, dir: Option<string>) returns (r: VolumeInfo)
    ensures r == VolumeInfoSpec(path, doc, dir)
  {
    if path.None? || path.value == "" {
      return NoDescriptor;
    }
    if doc.None? {
      return VolumeError(Unparseable);
    }
    var vf := CollectFiles(doc.value.files);
    if vf.Fail? {
      return VolumeError(vf.error);
    }
    var vd := CollectDisks(doc.value.disks, doc.value.items);
    if vd.Fail? {
      return VolumeError(vd.error);
    }
    var ds := BuildDataDisks(vf.value, vd.value, dir);
    if ds.Fail? {
      return VolumeError(ds.error);
    }
    return Volumes(ds.value);
  }

  /** The records of the accepted files, in the terms of the File entries. */
  predicate RecordsOf(ds: seq<DataDisk>, acc: seq<FileEntry>, dir: Option<string>)
  {
    |ds| == |acc|
    && forall i :: 0 <= i < |ds| ==>
         ds[i].path == NullText(dir) + "/" + acc[i].href && ds[i].id == acc[i].id
         && ds[i].fileSize == SizeValue(acc[i].size)
         && (ds[i].bootable <==> i == 0) && (ds[i].iso <==> EndsWith(acc[i].href, "iso"))
         && (EndsWith(acc[i].href, "vmdk") || EndsWith(acc[i].href, "iso"))
  }

  lemma RecordsOfAccepted(files: seq<FileEntry>, vf: seq<OvfFile>, vd: seq<OvfDisk>, dir: Option<string>,
                          ds: seq<DataDisk>)
    requires ReadFiles(files) == Ok(vf) && DataDisks(vf, vd, dir) == Ok(ds)
    ensures RecordsOf(ds, AcceptedEntries(files), dir)
  {
    ReadFilesProperties(files);
    DataDisksProperties(vf, vd, dir);
    var acc := AcceptedEntries(files);
    forall i | 0 <= i < |ds|
      ensures ds[i].path == NullText(dir) + "/" + acc[i].href && ds[i].id == acc[i].id
              && ds[i].fileSize == SizeValue(acc[i].size)
              && (ds[i].bootable <==> i == 0) && (ds[i].iso <==> EndsWith(acc[i].href, "iso"))
              && (EndsWith(acc[i].href, "vmdk") || EndsWith(acc[i].href, "iso"))
    {
      assert acc[i] in acc;
      ToDataDiskCopies(vf[i], vd, dir, ds[i]);
    }
  }

  lemma ToDataDiskCopies(f: OvfFile, vd: seq<OvfDisk>, dir: Option<string>, x: DataDisk)
    requires ToDataDisk(f, vd, dir) == Ok(x)
    ensures x.path == NullText(dir) + "/" + f.href && x.id == f.id && x.fileSize == f.size
            && x.iso == f.iso && x.bootable == f.bootable
  {
  }

  /**
   * getOVFVolumeInfo's result: null exactly for a null or empty path;
   * otherwise one record per accepted File entry, in document order, at
   * the directory of the descriptor, the first of them bootable and no
   * other, an iso exactly when its href ends in "iso", and the file's own
   * size as its file size.
   */
  lemma VolumeInfoOutcomes(path: Option<string>, doc: Option<Descriptor>, dir: Option<string>)
    ensures VolumeInfoSpec(path, doc, dir).NoDescriptor? <==> path.None? || path.value == ""
    ensures VolumeInfoSpec(path, doc, dir).Volumes? ==>
              RecordsOf(VolumeInfoSpec(path, doc, dir).disks, AcceptedEntries(doc.value.files), dir)
  {
    if VolumeInfoSpec(path, doc, dir).Volumes? {
      var vf := ReadFiles(doc.value.files).value;
      var vd := ReadDisks(doc.value.disks, doc.value.items).value;
      RecordsOfAccepted(doc.value.files, vf, vd, dir, VolumeInfoSpec(path, doc, dir).disks);
    }
  }

  // ---------------------------------------------------------------------
  // rewriteOVFFile: which elements are removed
  // ---------------------------------------------------------------------

  /** An element of the descriptor by its position among the elements of its kind. */
  datatype ElementRef = FileRef(index: nat) | DiskRef(index: nat) | ItemRef(index: nat)

  /** keepfile: the id of the last File entry whose href is the disk name, or null. */
  function KeepFile(files: seq<FileEntry>, diskName: string): (r: Option<string>)
    ensures r.None? <==> forall j :: 0 <= j < |files| ==> files[j].href != diskName
    ensures r.Some? ==> exists j :: 0 <= j < |files| && files[j].href == diskName && files[j].id == r.value
                                    && forall k :: j < k < |files| ==> files[k].href != diskName
  {
    if |files| == 0 then None
    else if files[|files| - 1].href == diskName then Some(files[|files| - 1].id)
    else
      var init := files[..|files| - 1];
      assert forall j :: 0 <= j < |init| ==> init[j] == files[j];
      KeepFile(init, diskName)
  }

  /** keepdisk: the disk id of the last Disk entry referring to keepfile; null when there is no keepfile. */
  function KeepDisk(disks: seq<DiskEntry>, keepFile: Option<string>): (r: Option<string>)
    ensures r.None? <==> keepFile.None? || forall i :: 0 <= i < |disks| ==> disks[i].fileRef != keepFile.value
    ensures r.Some? ==> exists i :: 0 <= i < |disks| && disks[i].fileRef == keepFile.value && disks[i].diskId == r.value
                                    && forall k :: i < k < |disks| ==> disks[k].fileRef != keepFile.value
  {
    if keepFile.None? || |disks| == 0 then None
    else if disks[|disks| - 1].fileRef == keepFile.value then Some(disks[|disks| - 1].diskId)
    else
      var init := disks[..|disks| - 1];
      assert forall j :: 0 <= j < |init| ==> init[j] == disks[j];
      KeepDisk(init, keepFile)
  }

  /** An item goes when one of its host resources names neither the file nor the disk keepdisk (null as "null"). */
  predicate Drops(item: Item, keepDisk: Option<string>)
  {
    exists h :: h in item.hostResources && !Mentions(h, NullText(keepDisk))
  }

  function FileRemovals(files: seq<FileEntry>, diskName: string): (r: seq<ElementRef>)
    ensures forall e :: e in r <==> e.FileRef? && e.index < |files| && files[e.index].href != diskName
  {
    if |files| == 0 then []
    else
      var init := files[..|files| - 1];
      assert forall j :: 0 <= j < |init| ==> init[j] == files[j];
      FileRemovals(init, diskName) + (if files[|files| - 1].href == diskName then [] else [FileRef(|files| - 1)])
  }

  function DiskRemovals(disks: seq<DiskEntry>, keepFile: Option<string>): (r: seq<ElementRef>)
    ensures forall e :: e in r <==> e.DiskRef? && e.index < |disks| && keepFile.Some? && disks[e.index].fileRef != keepFile.value
  {
    if |disks| == 0 then []
    else
      var init := disks[..|disks| - 1];
      assert forall j :: 0 <= j < |init| ==> init[j] == disks[j];
      DiskRemovals(init, keepFile)
      + (if keepFile.None? || disks[|disks| - 1].fileRef == keepFile.value then [] else [DiskRef(|disks| - 1)])
  }

  function ItemRemovals(items: seq<Item>, keepDisk: Option<string>): (r: seq<ElementRef>)
    ensures forall e :: e in r <==> e.ItemRef? && e.index < |items| && Drops(items[e.index], keepDisk)
  {
    if |items| == 0 then []
    else
      var init := items[..|items| - 1];
      assert forall j :: 0 <= j < |init| ==> init[j] == items[j];
      ItemRemovals(init, keepDisk) + (if Drops(items[|items| - 1], keepDisk) then [ItemRef(|items| - 1)] else [])
  }

  /** rewriteOVFFile's list of elements to remove, in the order it collects them. */
  function Removals(doc: Descriptor, diskName: string): seq<ElementRef>
  {
    var keepFile := KeepFile(doc.files, diskName);
    FileRemovals(doc.files, diskName) + DiskRemovals(doc.disks, keepFile)
    + ItemRemovals(doc.items, KeepDisk(doc.disks, keepFile))
  }

  /** rewriteOVFFile's three selection loops. */
  method SelectRemovals(doc: Descriptor, diskName: string) returns (toremove: seq<ElementRef>)
    ensures toremove == Removals(doc, diskName)
  {
    var keepFile, fileRemovals := SelectFiles(doc.files, diskName);
    var keepDisk, diskRemovals := SelectDisks(doc.disks, keepFile);
    var itemRemovals := SelectItems(doc.items, keepDisk);
    toremove := fileRemovals + diskRemovals + itemRemovals;
  }

  /** The File loop: keepfile and the File entries to remove. */
  method SelectFiles(files: seq<FileEntry>, diskName: string) returns (keepFile: Option<string>, toremove: seq<ElementRef>)
    ensures keepFile == KeepFile(files, diskName) && toremove == FileRemovals(files, diskName)
  {
    keepFile := None;
    toremove := [];
    var j := 0;
    while j < |files|
      invariant 0 <= j <= |files|
      invariant keepFile == KeepFile(files[..j], diskName)
      invariant toremove == FileRemovals(files[..j], diskName)
    {
      assert files[..j + 1][..j] == files[..j];
      if diskName == files[j].href {
        keepFile := Some(files[j].id);
      } else {
        toremove := toremove + [FileRef(j)];
      }
      j := j + 1;
    }
    assert files[..j] == files;
  }

  /** The Disk loop: keepdisk and the Disk entries to remove. */
  method SelectDisks(disks: seq<DiskEntry>, keepFile: Option<string>) returns (keepDisk: Option<string>, toremove: seq<ElementRef>)
    ensures keepDisk == KeepDisk(disks, keepFile) && toremove == DiskRemovals(disks, keepFile)
  {
    keepDisk := None;
    toremove := [];
    var i := 0;
    while i < |disks|
      invariant 0 <= i <= |disks|
      invariant keepDisk == KeepDisk(disks[..i], keepFile)
      invariant toremove == DiskRemovals(disks[..i], keepFile)
    {
      assert disks[..i + 1][..i] == disks[..i];
      if keepFile.None? {
        // no File entry has the disk name: the Disk entry is neither kept nor removed
      } else if keepFile.value == disks[i].fileRef {
        keepDisk := Some(disks[i].diskId);
      } else {
        toremove := toremove + [DiskRef(i)];
      }
      i := i + 1;
    }
    assert disks[..i] == disks;
  }

  /** The Item loop: an item goes at its first host resource that does not name keepdisk. */
  method SelectItems(items: seq<Item>, keepDisk: Option<string>) returns (toremove: seq<ElementRef>)
    ensures toremove == ItemRemovals(items, keepDisk)
  {
    toremove := [];
    var text := NullText(keepDisk);
    var k := 0;
    while k < |items|
      invariant 0 <= k <= |items|
      invariant toremove == ItemRemovals(items[..k], keepDisk)
    {
      assert items[..k + 1][..k] == items[..k];
      var hostResources := items[k].hostResources;
      var before := toremove;
      var l := 0;
      while l < |hostResources|
        invariant 0 <= l <= |hostResources| && toremove == before
        invariant forall m :: 0 <= m < l ==> Mentions(hostResources[m], text)
      {
        if !Mentions(hostResources[l], text) {
          toremove := toremove + [ItemRef(k)];
          break;
        }
        l := l + 1;
      }
      k := k + 1;
    }
    assert items[..k] == items;
  }

  /** The elements of xs whose positions are not in removed, in order. */
  function Unlisted<T>(xs: seq<T>, removed: set<nat>): (r: seq<T>)
    ensures forall x :: x in r ==> exists j :: 0 <= j < |xs| && xs[j] == x && j !in removed
    ensures forall j :: 0 <= j < |xs| && j !in removed ==> xs[j] in r
  {
    if |xs| == 0 then []
    else
      var init := xs[..|xs| - 1];
      assert forall j :: 0 <= j < |init| ==> init[j] == xs[j];
      Unlisted(init, removed) + (if |xs| - 1 in removed then [] else [xs[|xs| - 1]])
  }

  /** The descriptor without the listed elements, as the removal loop leaves the DOM. */
  function Rewritten(doc: Descriptor, toremove: seq<ElementRef>): Descriptor
  {
    Descriptor(Unlisted(doc.files, set e | e in toremove && e.FileRef? :: e.index),
               Unlisted(doc.disks, set e | e in toremove && e.DiskRef? :: e.index),
               Unlisted(doc.items, set e | e in toremove && e.ItemRef? :: e.index))
  }

  /** rewriteOVFFile on the parsed descriptor (None when it cannot be read or parsed); the output file is the result. */
  method RewriteOvfFile(doc: Option<Descriptor>, diskName: string) returns (r: Outcome<Descriptor>)
    ensures doc.None? ==> r == Fail(Unparseable)
    ensures doc.Some? ==> r == Ok(Rewritten(doc.value, Removals(doc.value, diskName)))
  {
    if doc.None? {
      return Fail(Unparseable);
    }
    var toremove := SelectRemovals(doc.value, diskName);
    return Ok(Rewritten(doc.value, toremove));
  }

  /**
   * The rewritten descriptor keeps exactly the File entries named by the
   * disk name; the Disk entries referring to the kept file, or all of
   * them when no file has that name; and the Items all of whose host
   * resources name the kept disk.
   */
  lemma RewriteKeeps(doc: Descriptor, diskName: string)
    ensures var out := Rewritten(doc, Removals(doc, diskName));
            var keepFile := KeepFile(doc.files, diskName);
            (forall f :: f in out.files <==> f in doc.files && f.href == diskName)
            && (forall d :: d in out.disks <==> d in doc.disks && (keepFile.None? || d.fileRef == keepFile.value))
            && (forall it :: it in out.items <==> it in doc.items && !Drops(it, KeepDisk(doc.disks, keepFile)))
  {
    var toremove := Removals(doc, diskName);
    FilesKept(doc, diskName, toremove);
    DisksKept(doc, diskName, toremove);
    ItemsKept(doc, diskName, toremove);
  }

  lemma FilesKept(doc: Descriptor, diskName: string, toremove: seq<ElementRef>)
    requires toremove == Removals(doc, diskName)
    ensures forall f :: f in Unlisted(doc.files, set e | e in toremove && e.FileRef? :: e.index) <==> f in doc.files && f.href == diskName
  {
    var keepFile := KeepFile(doc.files, diskName);
    var other := DiskRemovals(doc.disks, keepFile) + ItemRemovals(doc.items, KeepDisk(doc.disks, keepFile));
    var files := FileRemovals(doc.files, diskName);
    assert toremove == files + other;
    var idx := set e | e in toremove && e.FileRef? :: e.index;
    forall j | 0 <= j < |doc.files|
      ensures j in idx <==> doc.files[j].href != diskName
    {
      assert FileRef(j) !in other;
      assert FileRef(j) in files <==> doc.files[j].href != diskName;
      assert j in idx <==> FileRef(j) in toremove;
    }
    UnlistedKeeps(doc.files, idx, (f: FileEntry) => f.href == diskName);
  }

  lemma DisksKept(doc: Descriptor, diskName: string, toremove: seq<ElementRef>)
    requires toremove == Removals(doc, diskName)
    ensures var keepFile := KeepFile(doc.files, diskName);
            forall d :: d in Unlisted(doc.disks, set e | e in toremove && e.DiskRef? :: e.index) <==>
                          d in doc.disks && (keepFile.None? || d.fileRef == keepFile.value)
  {
    var keepFile := KeepFile(doc.files, diskName);
    var files := FileRemovals(doc.files, diskName);
    var items := ItemRemovals(doc.items, KeepDisk(doc.disks, keepFile));
    assert toremove == files + DiskRemovals(doc.disks, keepFile) + items;
    forall i | 0 <= i < |doc.disks|
      ensures i in (set e | e in toremove && e.DiskRef? :: e.index) <==> keepFile.Some? && doc.disks[i].fileRef != keepFile.value
    {
      assert DiskRef(i) !in files && DiskRef(i) !in items;
      assert DiskRef(i) in toremove <==> keepFile.Some? && doc.disks[i].fileRef != keepFile.value;
    }
    UnlistedKeeps(doc.disks, set e | e in toremove && e.DiskRef? :: e.index,
                  (d: DiskEntry) => keepFile.None? || d.fileRef == keepFile.value);
  }

  lemma ItemsKept(doc: Descriptor, diskName: string, toremove: seq<ElementRef>)
    requires toremove == Removals(doc, diskName)
    ensures var keepDisk := KeepDisk(doc.disks, KeepFile(doc.files, diskName));
            forall it :: it in Unlisted(doc.items, set e | e in toremove && e.ItemRef? :: e.index) <==>
                           it in doc.items && !Drops(it, keepDisk)
  {
    var keepFile := KeepFile(doc.files, diskName);
    var keepDisk := KeepDisk(doc.disks, keepFile);
    var other := FileRemovals(doc.files, diskName) + DiskRemovals(doc.disks, keepFile);
    assert toremove == other + ItemRemovals(doc.items, keepDisk);
    forall k | 0 <= k < |doc.items|
      ensures k in (set e | e in toremove && e.ItemRef? :: e.index) <==> Drops(doc.items[k], keepDisk)
    {
      assert ItemRef(k) !in other;
      assert ItemRef(k) in toremove <==> Drops(doc.items[k], keepDisk);
    }
    UnlistedKeeps(doc.items, set e | e in toremove && e.ItemRef? :: e.index, (it: Item) => !Drops(it, keepDisk));
  }

  /** Removing exactly the positions whose element fails `keep` leaves exactly the elements that pass it. */
  lemma UnlistedKeeps<T>(xs: seq<T>, removed: set<nat>, keep: T -> bool)
    requires forall j :: 0 <= j < |xs| ==> (j in removed <==> !keep(xs[j]))
    ensures forall x :: x in Unlisted(xs, removed) <==> x in xs && keep(x)
  {
    forall x | x in xs && keep(x)
      ensures x in Unlisted(xs, removed)
    {
      var j :| 0 <= j < |xs| && xs[j] == x;
    }
  }
}
