/** The decision logic of DeployTemplateService: the disk byte total, the import-spec fault
    check, network mappings, reading the descriptor and the disk payloads out of a template
    package, waiting for the HTTP NFC lease, matching device URLs to file items, and the order
    of calls in the lease setup. Remote calls, lookups and file access are the oracles of
    DeployTypes; the executor records what it is given. */
module DeployTemplate {
  import opened Results
  import opened DeployTypes

  // ---------------------------------------------------------------------------------------
  // Disk byte total (getDisksTotalNoBytes)

  /** A file item whose size counts towards the transfer total. */
  predicate IsDisk(item: FileItem, diskDriveCimType: int) {
    item.cimType == diskDriveCimType
  }

  /** The exact sum of the sizes of the disk-drive items, accumulated front to back; `None`
      when a disk-drive item has no size, which unboxing it for `+=` rejects. */
  function DiskBytes(items: seq<FileItem>, diskDriveCimType: int): Option<int>
  {
    if |items| == 0 then Some(0)
    else
      var last := items[|items| - 1];
      var init := DiskBytes(items[..|items| - 1], diskDriveCimType);
      if !IsDisk(last, diskDriveCimType) then init
      else if init.None? || last.size.None? then None
      else Some(init.value + last.size.value)
  }

  /** The disk-drive items of `items`, in order. */
  function DiskItems(items: seq<FileItem>, diskDriveCimType: int): seq<FileItem>
  {
    if |items| == 0 then []
    else (if IsDisk(items[0], diskDriveCimType) then [items[0]] else []) + DiskItems(items[1..], diskDriveCimType)
  }

  /** The disk-drive items are exactly the items of the disk-drive CIM type. */
  lemma {:induction false} DiskItemsMembers(items: seq<FileItem>, d: int)
    ensures forall x :: x in DiskItems(items, d) <==> x in items && IsDisk(x, d)
  {
    if |items| > 0 {
      DiskItemsMembers(items[1..], d);
      assert items == [items[0]] + items[1..];
    }
  }

  /** Every item of `items` has its size set. */
  predicate Sized(items: seq<FileItem>) {
    forall k :: 0 <= k < |items| ==> items[k].size.Some?
  }

  /** The sum of the sizes of `items`. */
  function SizeSum(items: seq<FileItem>): int
    requires Sized(items)
  {
    if |items| == 0 then 0 else items[0].size.value + SizeSum(items[1..])
  }

  lemma {:induction false} SizeSumAppend(a: seq<FileItem>, b: seq<FileItem>)
    requires Sized(a) && Sized(b)
    ensures Sized(a + b) && SizeSum(a + b) == SizeSum(a) + SizeSum(b)
  {
    if |a| > 0 {
      assert (a + b)[1..] == a[1..] + b;
      SizeSumAppend(a[1..], b);
    } else {
      assert a + b == b;
    }
  }

  lemma {:induction false} DiskItemsSnoc(items: seq<FileItem>, x: FileItem, d: int)
    ensures DiskItems(items + [x], d) == DiskItems(items, d) + (if IsDisk(x, d) then [x] else [])
  {
    if |items| == 0 {
      assert items + [x] == [x];
      assert [x][1..] == [];
    } else {
      var head := if IsDisk(items[0], d) then [items[0]] else [];
      var tail := if IsDisk(x, d) then [x] else [];
      var rest := items[1..];
      assert (items + [x])[0] == items[0];
      assert (items + [x])[1..] == rest + [x];
      DiskItemsSnoc(rest, x, d);
      assert DiskItems(items, d) == head + DiskItems(rest, d);
      assert DiskItems(items + [x], d) == head + (DiskItems(rest, d) + tail);
    }
  }

  /** The byte total exists exactly when every disk-drive item has a size, and is then the sum
      of the sizes of exactly the disk-drive items: every other item contributes nothing. */
  lemma {:induction false} DiskBytesIsSumOfDiskItems(items: seq<FileItem>, d: int)
    ensures DiskBytes(items, d).Some? <==> Sized(DiskItems(items, d))
    ensures DiskBytes(items, d).Some? ==> DiskBytes(items, d).value == SizeSum(DiskItems(items, d))
  {
    if |items| > 0 {
      var init, last := items[..|items| - 1], items[|items| - 1];
      assert items == init + [last];
      DiskBytesIsSumOfDiskItems(init, d);
      DiskItemsSnoc(init, last, d);
      var tail := if IsDisk(last, d) then [last] else [];
      assert DiskItems(items, d) == DiskItems(init, d) + tail;
      if Sized(DiskItems(init, d)) && Sized(tail) {
        SizeSumAppend(DiskItems(init, d), tail);
        if IsDisk(last, d) {
          assert SizeSum([last]) == last.size.value;
        }
      } else if !Sized(DiskItems(init, d)) {
        var k :| 0 <= k < |DiskItems(init, d)| && DiskItems(init, d)[k].size.None?;
        assert DiskItems(items, d)[k] == DiskItems(init, d)[k];
      } else {
        assert DiskItems(items, d)[|DiskItems(init, d)|] == last;
      }
    }
  }

  /** The byte total is missing exactly when some disk-drive item has no size. */
  lemma DiskBytesUnsized(items: seq<FileItem>, d: int)
    ensures DiskBytes(items, d).None? <==> exists x :: x in items && IsDisk(x, d) && x.size.None?
  {
    DiskBytesIsSumOfDiskItems(items, d);
    DiskItemsMembers(items, d);
    if !Sized(DiskItems(items, d)) {
      var k :| 0 <= k < |DiskItems(items, d)| && DiskItems(items, d)[k].size.None?;
      assert DiskItems(items, d)[k] in DiskItems(items, d);
    }
  }

  /** The total of a concatenation is the sum of the totals, so items never interact. */
  lemma {:induction false} DiskBytesAppend(a: seq<FileItem>, b: seq<FileItem>, d: int)
    ensures DiskBytes(a + b, d) ==
              if DiskBytes(a, d).Some? && DiskBytes(b, d).Some? then Some(DiskBytes(a, d).value + DiskBytes(b, d).value)
              else None
  {
    if |b| > 0 {
      assert (a + b)[..|a + b| - 1] == a + b[..|b| - 1];
      DiskBytesAppend(a, b[..|b| - 1], d);
    } else {
      assert a + b == a;
    }
  }

  /** getDisksTotalNoBytes: the `long` total of the sizes of the disk-drive items, wrapping
      around as Java's `+=` on a `long` does; a disk-drive item without a size throws when its
      `Long` is unboxed. */
  method GetDisksTotalNoBytes(rt: Runtime, importSpecResult: ImportSpecResult) returns (r: Result<Long, Failure>)
    ensures DiskBytes(importSpecResult.fileItems, rt.diskDriveCimType).None? ==> r == Err(NullPointer)
    ensures DiskBytes(importSpecResult.fileItems, rt.diskDriveCimType).Some? ==>
              r == Ok(WrapLong(DiskBytes(importSpecResult.fileItems, rt.diskDriveCimType).value))
    ensures var disks := DiskItems(importSpecResult.fileItems, rt.diskDriveCimType);
            Sized(disks) && -0x8000_0000_0000_0000 <= SizeSum(disks) < 0x8000_0000_0000_0000 ==> r == Ok(SizeSum(disks))
  {
    var items := importSpecResult.fileItems;
    var total: Long := 0;
    for i := 0 to |items|
      invariant DiskBytes(items[..i], rt.diskDriveCimType).Some?
      invariant total == WrapLong(DiskBytes(items[..i], rt.diskDriveCimType).value)
    {
      assert items[..i + 1][..i] == items[..i];
      if items[i].cimType == rt.diskDriveCimType {
        if items[i].size.None? {
          assert items == items[..i + 1] + items[i + 1..];
          DiskBytesAppend(items[..i + 1], items[i + 1..], rt.diskDriveCimType);
          DiskBytesIsSumOfDiskItems(items, rt.diskDriveCimType);
          return Err(NullPointer);
        }
        WrapLongAdd(DiskBytes(items[..i], rt.diskDriveCimType).value, items[i].size.value);
        total := WrapLong(total + items[i].size.value);
      }
    }
    assert items[..|items|] == items;
    DiskBytesIsSumOfDiskItems(items, rt.diskDriveCimType);
    return Ok(total);
  }

  // ---------------------------------------------------------------------------------------
  // Import-spec fault check (checkImportSpecResultForErrors)

  /** What StringBuilder.append makes of a fault's localized message: "null" for null. */
  function FaultText(f: Fault): string {
    match f.localizedMessage
    case None => "null"
    case Some(m) => m
  }

  /** The message of the exception: every fault's text followed by the line separator. */
  function FaultReport(faults: seq<Fault>, separator: string): string
  {
    if |faults| == 0 then ""
    else FaultReport(faults[..|faults| - 1], separator) + FaultText(faults[|faults| - 1]) + separator
  }

  /** The report of the first `i` faults starts the report of all of them. */
  lemma {:induction false} FaultReportPrefix(faults: seq<Fault>, separator: string, i: nat)
    requires i <= |faults|
    ensures FaultReport(faults[..i], separator) <= FaultReport(faults, separator)
    decreases |faults| - i
  {
    if i < |faults| {
      var init := faults[..|faults| - 1];
      assert init[..i] == faults[..i];
      FaultReportPrefix(init, separator, i);
    } else {
      assert faults[..i] == faults;
    }
  }

  /** Fault `i`'s text sits, followed by one separator, right after the report of the faults
      before it; the last fault's separator ends the report. */
  lemma FaultReportLayout(faults: seq<Fault>, separator: string, i: nat)
    requires i < |faults|
    ensures var report, offset, text := FaultReport(faults, separator), |FaultReport(faults[..i], separator)|, FaultText(faults[i]);
            && offset + |text| + |separator| <= |report|
            && report[offset..offset + |text|] == text
            && report[offset + |text|..offset + |text| + |separator|] == separator
            && (i == |faults| - 1 ==> offset + |text| + |separator| == |report|)
  {
    var upTo := faults[..i + 1];
    assert upTo[..|upTo| - 1] == faults[..i];
    var pre, text := FaultReport(faults[..i], separator), FaultText(faults[i]);
    assert FaultReport(upTo, separator) == pre + text + separator;
    FaultReportPrefix(faults, separator, i + 1);
    PieceOfPrefix(pre, text, separator, FaultReport(faults, separator));
    if i == |faults| - 1 {
      assert upTo == faults;
    }
  }

  /** Where a text starts with `pre + piece + sep`, `piece` and `sep` sit right after `pre`. */
  lemma PieceOfPrefix(pre: string, piece: string, sep: string, whole: string)
    requires pre + piece + sep <= whole
    ensures |pre| + |piece| + |sep| <= |whole|
    ensures whole[|pre|..|pre| + |piece|] == piece
    ensures whole[|pre| + |piece|..|pre| + |piece| + |sep|] == sep
  {
    var head := pre + piece + sep;
    assert whole[..|head|] == head;
    assert head[|pre|..|pre| + |piece|] == piece;
    assert head[|pre| + |piece|..] == sep;
  }

  /** checkImportSpecResultForErrors: throws exactly when the result carries faults, with the
      aggregated report as the message. */
  method CheckImportSpecResultForErrors(rt: Runtime, importSpecResult: ImportSpecResult) returns (r: Outcome<Failure>)
    ensures r.Fail? <==> |importSpecResult.errors| > 0
    ensures r.Fail? ==> r.error == Raised(FaultReport(importSpecResult.errors, rt.lineSeparator))
  {
    var faults := importSpecResult.errors;
    if 0 < |faults| {
      var builder := "";
      for i := 0 to |faults|
        invariant builder == FaultReport(faults[..i], rt.lineSeparator)
      {
        assert faults[..i + 1][..i] == faults[..i];
        builder := builder + FaultText(faults[i]) + rt.lineSeparator;
      }
      assert faults[..|faults|] == faults;
      return Fail(Raised(builder));
    }
    return Pass;
  }

  // ---------------------------------------------------------------------------------------
  // Network mappings (getOvfNetworkMappings)

  /** Every target network name of the map resolves. */
  ghost predicate NetworksResolve(env: Endpoint, networkMap: seq<(string, string)>) {
    forall i :: 0 <= i < |networkMap| ==> env.network(networkMap[i].1).Ok?
  }

  /** `mappings` holds one mapping per map entry, in entry order: the entry's key as the name
      and the handle its value resolves to as the network. */
  ghost predicate MapsNetworks(env: Endpoint, networkMap: seq<(string, string)>, mappings: seq<NetworkMapping>) {
    && |mappings| == |networkMap|
    && forall i :: 0 <= i < |networkMap| ==>
         env.network(networkMap[i].1).Ok? && mappings[i] == NetworkMapping(networkMap[i].0, env.network(networkMap[i].1).value)
  }

  /** getOvfNetworkMappings over the map's entries in iteration order; the first lookup that
      fails aborts the loop and its failure propagates. */
  method GetOvfNetworkMappings(env: Endpoint, networkMap: seq<(string, string)>) returns (r: Result<seq<NetworkMapping>, Failure>)
    ensures r.Ok? <==> NetworksResolve(env, networkMap)
    ensures r.Ok? ==> MapsNetworks(env, networkMap, r.value)
    ensures r.Err? ==> exists k :: 0 <= k < |networkMap| && env.network(networkMap[k].1) == Err(r.error)
                                   && forall j :: 0 <= j < k ==> env.network(networkMap[j].1).Ok?
  {
    var mappings: seq<NetworkMapping> := [];
    for i := 0 to |networkMap|
      invariant |mappings| == i
      invariant forall j :: 0 <= j < i ==>
                  env.network(networkMap[j].1).Ok? && mappings[j] == NetworkMapping(networkMap[j].0, env.network(networkMap[j].1).value)
    {
      var (name, networkName) := networkMap[i];
      var network := env.network(networkName);
      if network.Err? {
        return Err(network.error);
      }
      mappings := mappings + [NetworkMapping(name, network.value)];
    }
    return Ok(mappings);
  }

  // ---------------------------------------------------------------------------------------
  // Template package (getTransferVmdK, getOvfTemplateAsString)

  const NOT_OVA_OR_OVF: string := "Template file is not ova or ovf!"
  const NOT_READABLE: string := "Template file could not be read!"

  /** The archive entry that holds the payload named `vmdkName`: its name starts with it. */
  function NameStartsWith(vmdkName: string): TarEntry -> bool {
    (e: TarEntry) => vmdkName <= e.name
  }

  /** The archive entry that holds the descriptor. */
  function IsOvfEntry(rt: Runtime): TarEntry -> bool {
    (e: TarEntry) => rt.isOvf(e.name)
  }

  /** The payload source getTransferVmdK yields for the file item path `vmdkName`. */
  function TransferSourceFor(rt: Runtime, templatePath: string, file: TemplateFile, vmdkName: string): Result<TransferSource, Failure>
  {
    if rt.isOva(templatePath) then
      match file
      case Unreadable(reason) => Err(Io(reason))
      case Readable(entries, _) =>
        match FirstIndex(entries, NameStartsWith(vmdkName))
        case Some(k) => Ok(FromArchive(entries[k].name, entries[k].size))
        case None => Err(Raised(NOT_OVA_OR_OVF))
    else if rt.isOvf(templatePath) then
      match rt.parent(templatePath)
      case None => Err(NullPointer)
      case Some(directory) => Ok(FromFile(directory, vmdkName))
    else Err(Raised(NOT_OVA_OR_OVF))
  }

  /** Which payload getTransferVmdK yields, case by case. */
  lemma TransferSourceCases(rt: Runtime, templatePath: string, file: TemplateFile, vmdkName: string)
    ensures var r := TransferSourceFor(rt, templatePath, file, vmdkName);
            // an ova: the first entry, in archive order, whose name starts with the vmdk name
            && (rt.isOva(templatePath) && file.Readable? && r.Ok? ==>
                  exists k :: 0 <= k < |file.entries| && vmdkName <= file.entries[k].name
                              && (forall j :: 0 <= j < k ==> !(vmdkName <= file.entries[j].name))
                              && r.value == FromArchive(file.entries[k].name, file.entries[k].size))
            // an ova without such an entry falls through to the 'neither' exception
            && (rt.isOva(templatePath) && file.Readable? ==>
                  (r.Err? <==> forall j :: 0 <= j < |file.entries| ==> !(vmdkName <= file.entries[j].name)))
            && (rt.isOva(templatePath) && file.Readable? && r.Err? ==> r.error == Raised(NOT_OVA_OR_OVF))
            && (rt.isOva(templatePath) && file.Unreadable? ==> r == Err(Io(file.reason)))
            // an ovf: the vmdk name resolved against the template's parent directory
            && (!rt.isOva(templatePath) && rt.isOvf(templatePath) ==>
                  if rt.parent(templatePath).None? then r == Err(NullPointer)
                  else r == Ok(FromFile(rt.parent(templatePath).value, vmdkName)))
            && (!rt.isOva(templatePath) && !rt.isOvf(templatePath) ==> r == Err(Raised(NOT_OVA_OR_OVF)))
  {
    if rt.isOva(templatePath) && file.Readable? {
      var k := FirstIndex(file.entries, NameStartsWith(vmdkName));
      if k.None? {
        assert forall j :: 0 <= j < |file.entries| ==> !NameStartsWith(vmdkName)(file.entries[j]);
      }
    }
  }

  /** getTransferVmdK: scans the archive's entries forward until one's name starts with the
      vmdk name. */
  method GetTransferVmdk(rt: Runtime, templatePath: string, file: TemplateFile, vmdkName: string) returns (r: Result<TransferSource, Failure>)
    ensures r == TransferSourceFor(rt, templatePath, file, vmdkName)
  {
    if rt.isOva(templatePath) {
      if file.Unreadable? {
        return Err(Io(file.reason));
      }
      var entries := file.entries;
      var i := 0;
      while i < |entries|
        invariant 0 <= i <= |entries|
        invariant forall j :: 0 <= j < i ==> !(vmdkName <= entries[j].name)
      {
        if vmdkName <= entries[i].name {
          FirstIndexAt(entries, NameStartsWith(vmdkName), i);
          return Ok(FromArchive(entries[i].name, entries[i].size));
        }
        i := i + 1;
      }
    } else if rt.isOvf(templatePath) {
      var directory := rt.parent(templatePath);
      if directory.None? {
        return Err(NullPointer);
      }
      return Ok(FromFile(directory.value, vmdkName));
    }
    return Err(Raised(NOT_OVA_OR_OVF));
  }

  /** The descriptor text getOvfTemplateAsString yields. */
  function DescriptorText(rt: Runtime, templatePath: string, file: TemplateFile): (r: Result<string, Failure>)
    // an ova: the content of the first entry whose name is an ovf
    ensures rt.isOva(templatePath) && file.Readable? && r.Ok? ==>
              exists k :: 0 <= k < |file.entries| && rt.isOvf(file.entries[k].name)
                          && (forall j :: 0 <= j < k ==> !rt.isOvf(file.entries[j].name))
                          && r.value == file.entries[k].content
    ensures rt.isOva(templatePath) && file.Readable? ==>
              (r.Err? <==> forall j :: 0 <= j < |file.entries| ==> !rt.isOvf(file.entries[j].name))
    ensures rt.isOva(templatePath) && file.Readable? && r.Err? ==> r.error == Raised(NOT_READABLE)
    // a bare ovf: the whole file
    ensures !rt.isOva(templatePath) && rt.isOvf(templatePath) && file.Readable? ==> r == Ok(file.text)
    ensures (rt.isOva(templatePath) || rt.isOvf(templatePath)) && file.Unreadable? ==> r == Err(Io(file.reason))
    ensures !rt.isOva(templatePath) && !rt.isOvf(templatePath) ==> r == Err(Raised(NOT_READABLE))
  {
    if rt.isOva(templatePath) || rt.isOvf(templatePath) then
      match file
      case Unreadable(reason) => Err(Io(reason))
      case Readable(entries, text) =>
        if rt.isOva(templatePath) then
          match FirstIndex(entries, IsOvfEntry(rt))
          case Some(k) => Ok(entries[k].content)
          case None => Err(Raised(NOT_READABLE))
        else Ok(text)
    else Err(Raised(NOT_READABLE))
  }

  /** getOvfTemplateAsString: the descriptor entry of an archive, found by a forward scan, or
      the whole text of a bare descriptor. */
  method GetOvfTemplateAsString(rt: Runtime, templatePath: string, file: TemplateFile) returns (r: Result<string, Failure>)
    ensures r == DescriptorText(rt, templatePath, file)
  {
    if rt.isOva(templatePath) {
      if file.Unreadable? {
        return Err(Io(file.reason));
      }
      var entries := file.entries;
      var i := 0;
      while i < |entries|
        invariant 0 <= i <= |entries|
        invariant forall j :: 0 <= j < i ==> !rt.isOvf(entries[j].name)
      {
        if rt.isOvf(entries[i].name) {
          FirstIndexAt(entries, IsOvfEntry(rt), i);
          return Ok(entries[i].content);
        }
        i := i + 1;
      }
    } else if rt.isOvf(templatePath) {
      if file.Unreadable? {
        return Err(Io(file.reason));
      }
      return Ok(file.text);
    }
    return Err(Raised(NOT_READABLE));
  }

  // ---------------------------------------------------------------------------------------
  // Lease readiness (getHttpNfcLeaseInfoWhenReady)

  const LEASE_FAILURE_PREFIX: string := "Failed to get a HTTP NFC Lease: "

  /** How waiting for the lease ends: ready with its info, failed, or still polling once the
      observed states run out (the source then polls on without bound). */
  datatype LeaseWait = Ready(info: LeaseInfo) | LeaseFailed(failure: Failure) | Unsettled

  /** A state the polling loop acts on. */
  predicate Settled(state: string) {
    state == "ready" || state == "error"
  }

  /** The outcome of polling a lease whose successive polls observe `observed`, and how many
      polls it takes. The first poll is only tested for "ready"; every later poll is tested
      for "error" and then for "ready". */
  function LeaseWaitOutcome(observed: seq<string>, errorDetail: string, info: LeaseInfo): (LeaseWait, nat)
  {
    if |observed| == 0 then (Unsettled, 0)
    else if observed[0] == "ready" then (Ready(info), 1)
    else
      match FirstIndex(observed[1..], Settled)
      case None => (Unsettled, |observed|)
      case Some(k) =>
        if observed[k + 1] == "error" then (LeaseFailed(Raised(LEASE_FAILURE_PREFIX + errorDetail)), k + 2)
        else (Ready(info), k + 2)
  }

  /** getHttpNfcLeaseInfoWhenReady, consuming one observed state per poll. */
  method GetHttpNfcLeaseInfoWhenReady(observed: seq<string>, errorDetail: string, info: LeaseInfo) returns (r: LeaseWait, polls: nat)
    ensures (r, polls) == LeaseWaitOutcome(observed, errorDetail, info)
  {
    if |observed| == 0 {
      return Unsettled, 0;
    }
    var leaseState := observed[0];
    polls := 1;
    while leaseState != "ready"
      invariant 1 <= polls <= |observed|
      invariant leaseState == observed[polls - 1]
      invariant polls >= 2 ==> observed[0] != "ready" && observed[polls - 1] != "error"
      invariant forall j :: 1 <= j < polls - 1 ==> !Settled(observed[j])
      decreases |observed| - polls
    {
      if polls == |observed| {
        assert forall j :: 0 <= j < |observed[1..]| ==> !Settled(observed[1..][j]);
        return Unsettled, polls;
      }
      leaseState := observed[polls];
      polls := polls + 1;
      if leaseState == "error" {
        FirstIndexAt(observed[1..], Settled, polls - 2);
        return LeaseFailed(Raised(LEASE_FAILURE_PREFIX + errorDetail)), polls;
      }
      // sleep(100) between polls is not modelled
    }
    if polls >= 2 {
      FirstIndexAt(observed[1..], Settled, polls - 2);
    }
    return Ready(info), polls;
  }

  /** The lease is reported ready exactly when some poll sees "ready" and no poll after the
      first sees "error" before it; the first poll's "error" is never acted on. A ready
      outcome comes from the last poll made, and a first poll of "ready" is the only one. */
  lemma LeaseReadyIff(observed: seq<string>, errorDetail: string, info: LeaseInfo)
    ensures var (w, polls) := LeaseWaitOutcome(observed, errorDetail, info);
            && (w.Ready? <==> exists n :: 0 <= n < |observed| && observed[n] == "ready"
                                         && forall j :: 1 <= j < n ==> observed[j] != "error")
            && (w.Ready? ==> w.info == info && 1 <= polls <= |observed| && observed[polls - 1] == "ready")
            && (|observed| > 0 && observed[0] == "ready" ==> polls == 1)
  {
    var (w, polls) := LeaseWaitOutcome(observed, errorDetail, info);
    if w.Ready? {
      assert observed[polls - 1] == "ready";
      if polls >= 2 {
        var k := polls - 2;
        assert forall j :: 0 <= j < polls - 2 ==> !Settled(observed[1..][j]);
      }
    }
    if exists n :: 0 <= n < |observed| && observed[n] == "ready" && forall j :: 1 <= j < n ==> observed[j] != "error" {
      var n :| 0 <= n < |observed| && observed[n] == "ready" && forall j :: 1 <= j < n ==> observed[j] != "error";
      if observed[0] != "ready" {
        assert Settled(observed[1..][n - 1]);
        var k := FirstIndex(observed[1..], Settled).value;
        assert k <= n - 1;
        assert observed[1..][k] == observed[k + 1];
      }
    }
  }

  /** The lease fails exactly when a poll after the first sees "error" and no poll before it
      saw "ready"; the exception's message is the fixed prefix and the remote error detail. */
  lemma LeaseFailedIff(observed: seq<string>, errorDetail: string, info: LeaseInfo)
    ensures var (w, polls) := LeaseWaitOutcome(observed, errorDetail, info);
            && (w.LeaseFailed? <==> exists n :: 1 <= n < |observed| && observed[n] == "error"
                                               && forall j :: 0 <= j < n ==> observed[j] != "ready")
            && (w.LeaseFailed? ==> w.failure == Raised(LEASE_FAILURE_PREFIX + errorDetail)
                                   && 2 <= polls <= |observed| && observed[polls - 1] == "error")
  {
    var (w, polls) := LeaseWaitOutcome(observed, errorDetail, info);
    if w.LeaseFailed? {
      var k := polls - 2;
      assert observed[k + 1] == "error";
      assert forall j :: 0 <= j < k ==> !Settled(observed[1..][j]);
    }
    if exists n :: 1 <= n < |observed| && observed[n] == "error" && forall j :: 0 <= j < n ==> observed[j] != "ready" {
      var n :| 1 <= n < |observed| && observed[n] == "error" && forall j :: 0 <= j < n ==> observed[j] != "ready";
      assert Settled(observed[1..][n - 1]);
      var k := FirstIndex(observed[1..], Settled).value;
      assert k <= n - 1;
      assert observed[1..][k] == observed[k + 1];
    }
  }

  // ---------------------------------------------------------------------------------------
  // Matching device URLs to file items (transferVmdkFiles, getTransferVmdkTask)

  /** A file item of the device key `key`. */
  function HasDeviceId(key: string): FileItem -> bool {
    (item: FileItem) => key == item.deviceId
  }

  /** The first file item whose device id equals the URL's import key. */
  function MatchingItem(deviceUrl: DeviceUrl, items: seq<FileItem>): (r: Option<FileItem>)
    ensures r.None? <==> forall j :: 0 <= j < |items| ==> items[j].deviceId != deviceUrl.importKey
    ensures r.Some? ==> exists k :: 0 <= k < |items| && items[k] == r.value && r.value.deviceId == deviceUrl.importKey
                                    && forall j :: 0 <= j < k ==> items[j].deviceId != deviceUrl.importKey
  {
    match FirstIndex(items, HasDeviceId(deviceUrl.importKey))
    case None => None
    case Some(k) => Some(items[k])
  }

  /** The task getTransferVmdkTask builds for a device URL and its file item. */
  function TaskFor(rt: Runtime, templatePath: string, file: TemplateFile, deviceUrl: DeviceUrl, item: FileItem): (r: Result<TransferTask, Failure>)
    ensures r.Ok? <==> rt.isUrl(deviceUrl.url) && TransferSourceFor(rt, templatePath, file, item.path).Ok?
    ensures r.Ok? ==> r.value == TransferTask(TransferSourceFor(rt, templatePath, file, item.path).value, deviceUrl.url, item.create)
    ensures !rt.isUrl(deviceUrl.url) ==> r == Err(MalformedUrl(deviceUrl.url))
    ensures rt.isUrl(deviceUrl.url) && r.Err? ==> r.error == TransferSourceFor(rt, templatePath, file, item.path).error
  {
    if !rt.isUrl(deviceUrl.url) then Err(MalformedUrl(deviceUrl.url))
    else
      match TransferSourceFor(rt, templatePath, file, item.path)
      case Err(e) => Err(e)
      case Ok(source) => Ok(TransferTask(source, deviceUrl.url, item.create))
  }

  /** getTransferVmdkTask: the URL is parsed before the payload is looked up. */
  method GetTransferVmdkTask(rt: Runtime, templatePath: string, file: TemplateFile, deviceUrl: DeviceUrl, item: FileItem)
    returns (r: Result<TransferTask, Failure>)
    ensures r == TaskFor(rt, templatePath, file, deviceUrl, item)
  {
    if !rt.isUrl(deviceUrl.url) {
      return Err(MalformedUrl(deviceUrl.url));
    }
    var source := GetTransferVmdk(rt, templatePath, file, item.path);
    if source.Err? {
      return Err(source.error);
    }
    return Ok(TransferTask(source.value, deviceUrl.url, item.create));
  }

  /** The inner loop of transferVmdkFiles: scans the file items forward and stops (`break`)
      at the first whose device id is the URL's import key. */
  method FindFileItem(deviceUrl: DeviceUrl, items: seq<FileItem>) returns (r: Option<FileItem>)
    ensures r == MatchingItem(deviceUrl, items)
  {
    var deviceKey := deviceUrl.importKey;
    var j := 0;
    while j < |items|
      invariant 0 <= j <= |items|
      invariant forall k :: 0 <= k < j ==> items[k].deviceId != deviceKey
    {
      if deviceKey == items[j].deviceId {
        FirstIndexAt(items, HasDeviceId(deviceKey), j);
        return Some(items[j]);
      }
      j := j + 1;
    }
    return None;
  }

  /** The device URLs that have a file item, each with its first matching item, in URL order. */
  function Matched(deviceUrls: seq<DeviceUrl>, items: seq<FileItem>): (r: seq<(DeviceUrl, FileItem)>)
    ensures |r| <= |deviceUrls|
  {
    if |deviceUrls| == 0 then []
    else
      match MatchingItem(deviceUrls[0], items)
      case None => Matched(deviceUrls[1..], items)
      case Some(item) => [(deviceUrls[0], item)] + Matched(deviceUrls[1..], items)
  }

  /** A single device URL contributes its own pair with its first matching item, or nothing. */
  lemma MatchedOne(u: DeviceUrl, items: seq<FileItem>)
    ensures Matched([u], items) == match MatchingItem(u, items) case None => [] case Some(item) => [(u, item)]
  {
    assert [u][1..] == [];
  }

  /** The pairs of two URL lists put together are the pairs of the first list followed by
      those of the second: with MatchedOne, the matched pairs are the URLs with a file item,
      each once per occurrence with its first item, kept in URL order. */
  lemma {:induction false} MatchedAppend(a: seq<DeviceUrl>, b: seq<DeviceUrl>, items: seq<FileItem>)
    ensures Matched(a + b, items) == Matched(a, items) + Matched(b, items)
  {
    if |a| == 0 {
      assert a + b == b;
    } else {
      assert (a + b)[0] == a[0];
      assert (a + b)[1..] == a[1..] + b;
      MatchedAppend(a[1..], b, items);
    }
  }

  /** The tasks transferVmdkFiles submits, in order, and whether it throws: URLs without a
      file item are skipped, and the first task that cannot be built ends the loop. */
  function PlannedTransfers(rt: Runtime, templatePath: string, file: TemplateFile, items: seq<FileItem>, deviceUrls: seq<DeviceUrl>)
    : (seq<TransferTask>, Outcome<Failure>)
  {
    if |deviceUrls| == 0 then ([], Pass)
    else
      match MatchingItem(deviceUrls[0], items)
      case None => PlannedTransfers(rt, templatePath, file, items, deviceUrls[1..])
      case Some(item) =>
        match TaskFor(rt, templatePath, file, deviceUrls[0], item)
        case Err(e) => ([], Fail(e))
        case Ok(task) =>
          var rest := PlannedTransfers(rt, templatePath, file, items, deviceUrls[1..]);
          ([task] + rest.0, rest.1)
  }

  /** The submitted tasks are the tasks of the matched URLs, in URL order, up to the first
      one that cannot be built; without a failure there is one task per matched URL. */
  lemma {:induction false} PlannedTransfersBuildMatches(rt: Runtime, templatePath: string, file: TemplateFile, items: seq<FileItem>, deviceUrls: seq<DeviceUrl>)
    ensures var (tasks, outcome) := PlannedTransfers(rt, templatePath, file, items, deviceUrls);
            var matched := Matched(deviceUrls, items);
            && |tasks| <= |matched|
            && (forall k :: 0 <= k < |tasks| ==> TaskFor(rt, templatePath, file, matched[k].0, matched[k].1) == Ok(tasks[k]))
            && (outcome.Pass? ==> |tasks| == |matched|)
            && (outcome.Fail? ==> |tasks| < |matched|
                                  && TaskFor(rt, templatePath, file, matched[|tasks|].0, matched[|tasks|].1) == Err(outcome.error))
  {
    if |deviceUrls| > 0 {
      PlannedTransfersBuildMatches(rt, templatePath, file, items, deviceUrls[1..]);
    }
  }

  /** Each matched pair binds a device URL of the list to the first file item of its key. */
  lemma {:induction false} MatchedPairs(deviceUrls: seq<DeviceUrl>, items: seq<FileItem>)
    ensures forall k :: 0 <= k < |Matched(deviceUrls, items)| ==>
              var (u, item) := Matched(deviceUrls, items)[k];
              u in deviceUrls && MatchingItem(u, items) == Some(item)
  {
    if |deviceUrls| > 0 {
      MatchedPairs(deviceUrls[1..], items);
    }
  }

  /** When every device URL has a file item, every URL is matched, in list order. */
  lemma {:induction false} MatchedAll(deviceUrls: seq<DeviceUrl>, items: seq<FileItem>)
    requires forall i :: 0 <= i < |deviceUrls| ==> exists j :: 0 <= j < |items| && items[j].deviceId == deviceUrls[i].importKey
    ensures |Matched(deviceUrls, items)| == |deviceUrls|
    ensures forall i :: 0 <= i < |deviceUrls| ==> Matched(deviceUrls, items)[i].0 == deviceUrls[i]
  {
    if |deviceUrls| > 0 {
      var j :| 0 <= j < |items| && items[j].deviceId == deviceUrls[0].importKey;
      assert MatchingItem(deviceUrls[0], items).Some?;
      MatchedAll(deviceUrls[1..], items);
    }
  }

  /** A device URL no file item claims adds nothing: neither a task nor an error. */
  lemma {:induction false} UnmatchedUrlSkipped(rt: Runtime, templatePath: string, file: TemplateFile, items: seq<FileItem>,
                                               before: seq<DeviceUrl>, url: DeviceUrl, after: seq<DeviceUrl>)
    requires forall j :: 0 <= j < |items| ==> items[j].deviceId != url.importKey
    ensures PlannedTransfers(rt, templatePath, file, items, before + [url] + after)
            == PlannedTransfers(rt, templatePath, file, items, before + after)
  {
    if |before| == 0 {
      assert before + [url] + after == [url] + after;
      assert ([url] + after)[1..] == after;
      assert before + after == after;
    } else {
      assert (before + [url] + after)[0] == before[0];
      assert (before + [url] + after)[1..] == before[1..] + [url] + after;
      assert (before + after)[0] == before[0];
      assert (before + after)[1..] == before[1..] + after;
      UnmatchedUrlSkipped(rt, templatePath, file, items, before[1..], url, after);
    }
  }

  /** A plan with the tasks `done` already submitted in front of it. */
  function AfterDone(done: seq<TransferTask>, plan: (seq<TransferTask>, Outcome<Failure>)): (seq<TransferTask>, Outcome<Failure>) {
    (done + plan.0, plan.1)
  }

  lemma PlannedSkip(rt: Runtime, templatePath: string, file: TemplateFile, items: seq<FileItem>, deviceUrls: seq<DeviceUrl>,
                    i: nat, done: seq<TransferTask>)
    requires i < |deviceUrls| && MatchingItem(deviceUrls[i], items).None?
    ensures AfterDone(done, PlannedTransfers(rt, templatePath, file, items, deviceUrls[i..]))
            == AfterDone(done, PlannedTransfers(rt, templatePath, file, items, deviceUrls[i + 1..]))
  {
    assert deviceUrls[i..][0] == deviceUrls[i] && deviceUrls[i..][1..] == deviceUrls[i + 1..];
  }

  lemma PlannedTake(rt: Runtime, templatePath: string, file: TemplateFile, items: seq<FileItem>, deviceUrls: seq<DeviceUrl>,
                    i: nat, done: seq<TransferTask>)
    requires i < |deviceUrls| && MatchingItem(deviceUrls[i], items).Some?
    requires TaskFor(rt, templatePath, file, deviceUrls[i], MatchingItem(deviceUrls[i], items).value).Ok?
    ensures var task := TaskFor(rt, templatePath, file, deviceUrls[i], MatchingItem(deviceUrls[i], items).value).value;
            AfterDone(done, PlannedTransfers(rt, templatePath, file, items, deviceUrls[i..]))
            == AfterDone(done + [task], PlannedTransfers(rt, templatePath, file, items, deviceUrls[i + 1..]))
  {
    assert deviceUrls[i..][0] == deviceUrls[i] && deviceUrls[i..][1..] == deviceUrls[i + 1..];
    var rest := PlannedTransfers(rt, templatePath, file, items, deviceUrls[i + 1..]);
    var task := TaskFor(rt, templatePath, file, deviceUrls[i], MatchingItem(deviceUrls[i], items).value).value;
    assert done + ([task] + rest.0) == (done + [task]) + rest.0;
  }

  lemma PlannedStop(rt: Runtime, templatePath: string, file: TemplateFile, items: seq<FileItem>, deviceUrls: seq<DeviceUrl>,
                    i: nat, done: seq<TransferTask>)
    requires i < |deviceUrls| && MatchingItem(deviceUrls[i], items).Some?
    requires TaskFor(rt, templatePath, file, deviceUrls[i], MatchingItem(deviceUrls[i], items).value).Err?
    ensures AfterDone(done, PlannedTransfers(rt, templatePath, file, items, deviceUrls[i..]))
            == (done, Fail(TaskFor(rt, templatePath, file, deviceUrls[i], MatchingItem(deviceUrls[i], items).value).error))
  {
    assert deviceUrls[i..][0] == deviceUrls[i];
    assert done + [] == done;
  }

  /** The jobs the executor receives for a list of tasks. */
  function TransferJobs(tasks: seq<TransferTask>): (jobs: seq<Job>)
    ensures |jobs| == |tasks| && forall k :: 0 <= k < |tasks| ==> jobs[k] == Transfer(tasks[k])
  {
    if |tasks| == 0 then [] else [Transfer(tasks[0])] + TransferJobs(tasks[1..])
  }

  lemma {:induction false} TransferJobsAppend(a: seq<TransferTask>, b: seq<TransferTask>)
    ensures TransferJobs(a + b) == TransferJobs(a) + TransferJobs(b)
  {
    var ab := a + b;
    assert forall k :: 0 <= k < |ab| ==> ab[k] == if k < |a| then a[k] else b[k - |a|];
  }

  // ---------------------------------------------------------------------------------------
  // Import-spec parameters and lease setup (getOvfCreateImportSpecParams, createLeaseSetup)

  /** An OvfCreateImportSpecParams object; a freshly made one has no field set. */
  class OvfCreateImportSpecParams {
    var hostSystem: Option<Mor>
    var deploymentOption: Option<string>
    var locale: Option<string>
    var entityName: Option<string>
    var ipAllocationPolicy: Option<string>
    var ipProtocol: Option<string>
    var diskProvisioning: Option<string>
    var networkMapping: seq<NetworkMapping>

    /** The object's state as the endpoint receives it. */
    function View(): SpecParams
      reads this
    {
      SpecParams(hostSystem, deploymentOption, locale, entityName, ipAllocationPolicy, ipProtocol, diskProvisioning, networkMapping)
    }

    constructor ()
      ensures View() == SpecParams(None, None, None, None, None, None, None, [])
    {
      hostSystem, deploymentOption, locale, entityName := None, None, None, None;
      ipAllocationPolicy, ipProtocol, diskProvisioning := None, None, None;
      networkMapping := [];
    }
  }

  /** getOvfCreateImportSpecParams: a fresh params object with the host, an empty deployment
      option, the VM's locale, name, IP allocation scheme, IP protocol and disk provisioning,
      and the network mappings added to its (empty) mapping list. */
  method GetOvfCreateImportSpecParams(vm: VmInputs, hostSystem: Mor, networkMappings: seq<NetworkMapping>)
    returns (params: OvfCreateImportSpecParams)
    ensures fresh(params)
    ensures params.View() == SpecParams(Some(hostSystem), Some(""), Some(vm.locale), Some(vm.virtualMachineName),
                                        Some(vm.ipAllocScheme), Some(vm.ipProtocol), Some(vm.diskProvisioning), networkMappings)
  {
    params := new OvfCreateImportSpecParams();
    params.hostSystem := Some(hostSystem);
    params.deploymentOption := Some("");
    params.locale := Some(vm.locale);
    params.entityName := Some(vm.virtualMachineName);
    params.ipAllocationPolicy := Some(vm.ipAllocScheme);
    params.ipProtocol := Some(vm.ipProtocol);
    params.diskProvisioning := Some(vm.diskProvisioning);
    params.networkMapping := params.networkMapping + networkMappings;
  }

  /** Character.isWhitespace for the characters below U+0080. */
  predicate IsWhitespace(c: char) {
    c == ' ' || c == '\t' || c == '\n' || c == '\U{000B}' || c == '\U{000C}' || c == '\r' || ('\U{001C}' <= c <= '\U{001F}')
  }

  /** StringUtilities.isBlank of a non-null string. */
  predicate IsBlank(s: string) {
    forall i :: 0 <= i < |s| ==> IsWhitespace(s[i])
  }

  /** The resource pool: by pool name when no cluster is named, otherwise the pool of that
      name inside the named cluster. */
  function ResourcePoolFor(env: Endpoint, vm: VmInputs): (r: Result<Mor, Failure>)
    ensures IsBlank(vm.clusterName) ==> r == env.resourcePoolByName(vm.resourcePool)
    ensures !IsBlank(vm.clusterName) && env.cluster(vm.clusterName).Err? ==> r == Err(env.cluster(vm.clusterName).error)
    ensures !IsBlank(vm.clusterName) && env.cluster(vm.clusterName).Ok? ==>
              r == env.resourcePoolInCluster(env.cluster(vm.clusterName).value, vm.resourcePool)
  {
    if IsBlank(vm.clusterName) then env.resourcePoolByName(vm.resourcePool)
    else
      match env.cluster(vm.clusterName)
      case Err(e) => Err(e)
      case Ok(cluster) => env.resourcePoolInCluster(cluster, vm.resourcePool)
  }

  /** The handles the lease setup resolves before any import spec is requested. */
  datatype Placement = Placement(ovfManager: Mor, resourcePool: Mor, host: Mor, datastore: Mor, folder: Mor)

  /** The placement lookups in the order the lease setup makes them; the first that fails is
      the error it throws. */
  function PlacementFor(env: Endpoint, vm: VmInputs): (r: Result<Placement, Failure>)
    ensures r.Ok? <==> env.ovfManager.Ok? && ResourcePoolFor(env, vm).Ok? && env.host(vm.hostname).Ok?
                       && env.datastore(vm.dataStore).Ok? && env.folder(vm.folderName).Ok?
    ensures r.Ok? ==> r.value == Placement(env.ovfManager.value, ResourcePoolFor(env, vm).value, env.host(vm.hostname).value,
                                           env.datastore(vm.dataStore).value, env.folder(vm.folderName).value)
    // a failure is that of the first failing lookup
    ensures env.ovfManager.Err? ==> r == Err(env.ovfManager.error)
    ensures env.ovfManager.Ok? && ResourcePoolFor(env, vm).Err? ==> r == Err(ResourcePoolFor(env, vm).error)
    ensures env.ovfManager.Ok? && ResourcePoolFor(env, vm).Ok? && env.host(vm.hostname).Err? ==> r == Err(env.host(vm.hostname).error)
    ensures env.ovfManager.Ok? && ResourcePoolFor(env, vm).Ok? && env.host(vm.hostname).Ok? && env.datastore(vm.dataStore).Err? ==>
              r == Err(env.datastore(vm.dataStore).error)
    ensures r.Err? && env.ovfManager.Ok? && ResourcePoolFor(env, vm).Ok? && env.host(vm.hostname).Ok? && env.datastore(vm.dataStore).Ok? ==>
              r == Err(env.folder(vm.folderName).error)
  {
    match env.ovfManager
    case Err(e) => Err(e)
    case Ok(manager) =>
      match ResourcePoolFor(env, vm)
      case Err(e) => Err(e)
      case Ok(pool) =>
        match env.host(vm.hostname)
        case Err(e) => Err(e)
        case Ok(host) =>
          match env.datastore(vm.dataStore)
          case Err(e) => Err(e)
          case Ok(datastore) =>
            match env.folder(vm.folderName)
            case Err(e) => Err(e)
            case Ok(folder) => Ok(Placement(manager, pool, host, datastore, folder))
  }

  /** The lease and the import-spec result createLeaseSetup returns. */
  datatype LeaseSetup = LeaseSetup(lease: Mor, importSpecResult: ImportSpecResult)

  /** What createLeaseSetup does, given the endpoint calls it made in order. The import spec
      is requested only after every lookup, mapping and the descriptor succeeded; the lease is
      requested only after the import spec came back without faults, with that spec and the
      same resource pool, host and folder. */
  ghost predicate LeaseSetupSpec(env: Endpoint, rt: Runtime, vm: VmInputs, templatePath: string, file: TemplateFile,
                         networkMap: seq<(string, string)>, r: Result<LeaseSetup, Failure>, calls: seq<RemoteCall>)
  {
    (|calls| <= 2)
    && (calls == [] ==> r.Err?)
    // lookups, mappings and the descriptor come first; their failures stop everything
    && (PlacementFor(env, vm).Err? ==> r == Err(PlacementFor(env, vm).error) && calls == [])
    && (PlacementFor(env, vm).Ok? && !NetworksResolve(env, networkMap) ==>
        r.Err? && calls == []
        && exists k :: 0 <= k < |networkMap| && env.network(networkMap[k].1) == Err(r.error)
                       && forall j :: 0 <= j < k ==> env.network(networkMap[j].1).Ok?)
    && (PlacementFor(env, vm).Ok? && NetworksResolve(env, networkMap) && DescriptorText(rt, templatePath, file).Err? ==>
        r == Err(DescriptorText(rt, templatePath, file).error) && calls == [])
    // the import spec request
    && (|calls| >= 1 <==> PlacementFor(env, vm).Ok? && NetworksResolve(env, networkMap) && DescriptorText(rt, templatePath, file).Ok?)
    && (|calls| >= 1 ==> calls[0].CreateImportSpec?)
    && (|calls| >= 1 ==>
        var p, q := PlacementFor(env, vm).value, calls[0].request;
        && q.ovfManager == p.ovfManager && q.resourcePool == p.resourcePool && q.datastore == p.datastore
        && q.descriptor == DescriptorText(rt, templatePath, file).value
        && q.params.hostSystem == Some(p.host) && q.params.deploymentOption == Some("")
        && q.params.locale == Some(vm.locale) && q.params.entityName == Some(vm.virtualMachineName)
        && q.params.ipAllocationPolicy == Some(vm.ipAllocScheme) && q.params.ipProtocol == Some(vm.ipProtocol)
        && q.params.diskProvisioning == Some(vm.diskProvisioning)
        && MapsNetworks(env, networkMap, q.params.networkMapping))
    && (|calls| == 1 ==> r.Err?)
    && (|calls| == 1 && env.createImportSpec(calls[0].request).Err? ==> r == Err(env.createImportSpec(calls[0].request).error))
    && (|calls| >= 1 && env.createImportSpec(calls[0].request).Ok? && env.createImportSpec(calls[0].request).value.errors != [] ==>
        |calls| == 1 && r == Err(Raised(FaultReport(env.createImportSpec(calls[0].request).value.errors, rt.lineSeparator))))
    // the lease request, made exactly when the import spec came back without faults
    && (|calls| >= 1 && env.createImportSpec(calls[0].request).Ok? && env.createImportSpec(calls[0].request).value.errors == [] ==>
          |calls| == 2)
    && (|calls| == 2 ==>
        var p, q := PlacementFor(env, vm).value, calls[0].request;
        && env.createImportSpec(q).Ok? && env.createImportSpec(q).value.errors == []
        && calls[1] == RequestLease(LeaseRequest(env.createImportSpec(q).value.importSpec, p.resourcePool, p.host, p.folder)))
    && (r.Ok? <==> |calls| == 2 && env.httpNfcLease(calls[1].lease).Ok?)
    && (|calls| == 2 && env.httpNfcLease(calls[1].lease).Err? ==> r == Err(env.httpNfcLease(calls[1].lease).error))
    && (r.Ok? ==> r.value == LeaseSetup(env.httpNfcLease(calls[1].lease).value, env.createImportSpec(calls[0].request).value))
  }

  /** createLeaseSetup. `calls` lists the endpoint calls made, in order. */
  method CreateLeaseSetup(env: Endpoint, rt: Runtime, vm: VmInputs, templatePath: string, file: TemplateFile,
                          networkMap: seq<(string, string)>, propertyMap: seq<(string, string)>)
    returns (r: Result<LeaseSetup, Failure>, calls: seq<RemoteCall>)
    ensures LeaseSetupSpec(env, rt, vm, templatePath, file, networkMap, r, calls)
  {
    calls := [];
    var placement := PlacementFor(env, vm);
    if placement.Err? {
      return Err(placement.error), calls;
    }
    var Placement(ovfManager, resourcePool, hostMor, datastoreMor, folderMor) := placement.value;
    var ovfNetworkMappings := GetOvfNetworkMappings(env, networkMap);
    if ovfNetworkMappings.Err? {
      return Err(ovfNetworkMappings.error), calls;
    }
    // getOvfPropertyMappings returns null, and the property map is never forwarded
    var descriptor := GetOvfTemplateAsString(rt, templatePath, file);
    if descriptor.Err? {
      return Err(descriptor.error), calls;
    }
    var params := GetOvfCreateImportSpecParams(vm, hostMor, ovfNetworkMappings.value);
    var request := ImportSpecRequest(ovfManager, descriptor.value, resourcePool, datastoreMor, params.View());
    calls := calls + [CreateImportSpec(request)];
    var importSpecResult := env.createImportSpec(request);
    if importSpecResult.Err? {
      return Err(importSpecResult.error), calls;
    }
    var check := CheckImportSpecResultForErrors(rt, importSpecResult.value);
    if check.Fail? {
      return Err(check.error), calls;
    }
    var leaseRequest := LeaseRequest(importSpecResult.value.importSpec, resourcePool, hostMor, folderMor);
    calls := calls + [RequestLease(leaseRequest)];
    var httpNfcLease := env.httpNfcLease(leaseRequest);
    if httpNfcLease.Err? {
      return Err(httpNfcLease.error), calls;
    }
    return Ok(LeaseSetup(httpNfcLease.value, importSpecResult.value)), calls;
  }

  // ---------------------------------------------------------------------------------------
  // The service and its executor (deployTemplate, transferVmdkFiles)

  /** A CustomExecutor, as the jobs it has been handed and whether it was shut down. */
  class Executor {
    const parallel: bool
    var submitted: seq<Job>
    var shutdown: bool

    constructor (parallel: bool)
      ensures this.parallel == parallel && submitted == [] && !shutdown
    {
      this.parallel := parallel;
      submitted := [];
      shutdown := false;
    }

    method Execute(job: Job)
      modifies this
      ensures submitted == old(submitted) + [job] && shutdown == old(shutdown)
    {
      submitted := submitted + [job];
    }

    method Shutdown()
      modifies this
      ensures shutdown && submitted == old(submitted)
    {
      shutdown := true;
    }
  }

  /** How a deployment ends: deployed, aborted by a failure, or still waiting on a lease whose
      observed states ran out. */
  datatype Deployment = Deployed | Aborted(failure: Failure) | LeasePending

  class DeployTemplateService {
    const executor: Executor

    constructor (parallel: bool)
      ensures fresh(executor) && executor.parallel == parallel && executor.submitted == [] && !executor.shutdown
    {
      executor := new Executor(parallel);
    }

    /** transferVmdkFiles: for each device URL in order, the first file item of its key gets a
        task submitted to the executor; URLs without an item are skipped. */
    method TransferVmdkFiles(rt: Runtime, templatePath: string, file: TemplateFile, importSpecResult: ImportSpecResult,
                             deviceUrls: seq<DeviceUrl>) returns (r: Outcome<Failure>)
      modifies executor
      ensures var (tasks, outcome) := PlannedTransfers(rt, templatePath, file, importSpecResult.fileItems, deviceUrls);
              && r == outcome
              && executor.submitted == old(executor.submitted) + TransferJobs(tasks)
              && executor.shutdown == old(executor.shutdown)
    {
      var items := importSpecResult.fileItems;
      ghost var done: seq<TransferTask> := [];
      ghost var plan := PlannedTransfers(rt, templatePath, file, items, deviceUrls);
      assert deviceUrls[0..] == deviceUrls;
      assert done + plan.0 == plan.0;
      for i := 0 to |deviceUrls|
        invariant executor.submitted == old(executor.submitted) + TransferJobs(done)
        invariant executor.shutdown == old(executor.shutdown)
        invariant AfterDone(done, PlannedTransfers(rt, templatePath, file, items, deviceUrls[i..])) == plan
      {
        var deviceUrl := deviceUrls[i];
        var fileItem := FindFileItem(deviceUrl, items);
        if fileItem.Some? {
          var task := GetTransferVmdkTask(rt, templatePath, file, deviceUrl, fileItem.value);
          if task.Err? {
            PlannedStop(rt, templatePath, file, items, deviceUrls, i, done);
            return Fail(task.error);
          }
          PlannedTake(rt, templatePath, file, items, deviceUrls, i, done);
          TransferJobsAppend(done, [task.value]);
          executor.Execute(Transfer(task.value));
          done := done + [task.value];
        } else {
          PlannedSkip(rt, templatePath, file, items, deviceUrls, i, done);
        }
      }
      assert PlannedTransfers(rt, templatePath, file, items, deviceUrls[|deviceUrls|..]) == ([], Pass);
      assert done + [] == done;
      return Pass;
    }

    /** deployTemplate: lease setup, waiting for the lease, then the progress updater and one
        transfer task per matched device URL handed to the executor, which is shut down after
        all tasks were submitted. The property map is accepted and never used. */
    method DeployTemplate(env: Endpoint, rt: Runtime, vm: VmInputs, templatePath: string, file: TemplateFile,
                          networkMap: seq<(string, string)>, propertyMap: seq<(string, string)>,
                          leaseStates: Mor -> seq<string>, leaseErrorState: Mor -> string, leaseInfo: Mor -> LeaseInfo)
      returns (r: Deployment, setup: Result<LeaseSetup, Failure>, ghost calls: seq<RemoteCall>)
      modifies executor
      ensures LeaseSetupSpec(env, rt, vm, templatePath, file, networkMap, setup, calls)
      ensures setup.Err? ==> r == Aborted(setup.error) && executor.submitted == old(executor.submitted) && executor.shutdown == old(executor.shutdown)
      ensures setup.Ok? ==>
                var lease, spec := setup.value.lease, setup.value.importSpecResult;
                var (wait, _) := LeaseWaitOutcome(leaseStates(lease), leaseErrorState(lease), leaseInfo(lease));
                && (wait.LeaseFailed? ==> r == Aborted(wait.failure)
                                          && executor.submitted == old(executor.submitted) && executor.shutdown == old(executor.shutdown))
                && (wait.Unsettled? ==> r == LeasePending
                                        && executor.submitted == old(executor.submitted) && executor.shutdown == old(executor.shutdown))
                && (wait.Ready? && DiskBytes(spec.fileItems, rt.diskDriveCimType).None? ==>
                      r == Aborted(NullPointer)
                      && executor.submitted == old(executor.submitted) && executor.shutdown == old(executor.shutdown))
                && (wait.Ready? && DiskBytes(spec.fileItems, rt.diskDriveCimType).Some? ==>
                      var (tasks, outcome) := PlannedTransfers(rt, templatePath, file, spec.fileItems, wait.info.deviceUrls);
                      var updater := ProgressUpdater(executor.parallel, WrapLong(DiskBytes(spec.fileItems, rt.diskDriveCimType).value), lease);
                      && executor.submitted == old(executor.submitted) + [Progress(updater)] + TransferJobs(tasks)
                      && (outcome.Pass? ==> r == Deployed && executor.shutdown)
                      && (outcome.Fail? ==> r == Aborted(outcome.error) && executor.shutdown == old(executor.shutdown)))
    {
      setup, calls := CreateLeaseSetup(env, rt, vm, templatePath, file, networkMap, propertyMap);
      if setup.Err? {
        return Aborted(setup.error), setup, calls;
      }
      var lease, importSpecResult := setup.value.lease, setup.value.importSpecResult;
      var wait, _ := GetHttpNfcLeaseInfoWhenReady(leaseStates(lease), leaseErrorState(lease), leaseInfo(lease));
      if wait.LeaseFailed? {
        return Aborted(wait.failure), setup, calls;
      } else if wait.Unsettled? {
        return LeasePending, setup, calls;
      }
      var totalBytes := GetDisksTotalNoBytes(rt, importSpecResult);
      if totalBytes.Err? {
        return Aborted(totalBytes.error), setup, calls;
      }
      var progressUpdater := ProgressUpdater(executor.parallel, totalBytes.value, lease);
      executor.Execute(Progress(progressUpdater));
      var transferred := TransferVmdkFiles(rt, templatePath, file, importSpecResult, wait.info.deviceUrls);
      if transferred.Fail? {
        return Aborted(transferred.error), setup, calls;
      }
      executor.Shutdown();
      return Deployed, setup, calls;
    }
  }
}
