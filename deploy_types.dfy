/** The values the template deployment works on: Java longs, VIM handles and results, the
    template package as its tar entries, and the collaborators it calls, given as oracles. */
module DeployTypes {
  import opened Results

  /** Java's `long`, the type of file-item sizes, tar entry sizes and the disk byte total. */
  type Long = x: int | -0x8000_0000_0000_0000 <= x < 0x8000_0000_0000_0000

  /** The value a Java `long` holds after an addition whose exact result is `x`:
      two's-complement wrap-around modulo 2^64. */
  function WrapLong(x: int): (r: Long)
    ensures (x - r) % 0x1_0000_0000_0000_0000 == 0
    ensures -0x8000_0000_0000_0000 <= x < 0x8000_0000_0000_0000 ==> r == x
  {
    (x + 0x8000_0000_0000_0000) % 0x1_0000_0000_0000_0000 - 0x8000_0000_0000_0000
  }

  /** Adding to a wrapped long wraps like adding to the exact value. */
  lemma WrapLongAdd(a: int, b: int)
    ensures WrapLong(WrapLong(a) + b) == WrapLong(a + b)
  {
    var x := a + 0x8000_0000_0000_0000;
    var q := x / 0x1_0000_0000_0000_0000;
    assert x == q * 0x1_0000_0000_0000_0000 + x % 0x1_0000_0000_0000_0000;
    ModuloShift(x % 0x1_0000_0000_0000_0000 + b, q);
  }

  lemma ModuloShift(t: int, q: int)
    ensures (q * 0x1_0000_0000_0000_0000 + t) % 0x1_0000_0000_0000_0000 == t % 0x1_0000_0000_0000_0000
  {
    var r := t % 0x1_0000_0000_0000_0000;
    assert t == (t / 0x1_0000_0000_0000_0000) * 0x1_0000_0000_0000_0000 + r;
  }

  /** A ManagedObjectReference: an opaque handle to a remote object. */
  datatype Mor = Mor(kind: string, value: string)

  /** One fault record of an import-spec result. `getLocalizedMessage()` may be null. */
  datatype Fault = Fault(localizedMessage: Option<string>)

  /** An OvfFileItem of the import spec: the device key it belongs to, the path of its payload,
      its CIM type, its byte size and whether the remote store must create it. The size is a
      boxed `Long` that the endpoint may leave unset (`None`). */
  datatype FileItem = FileItem(deviceId: string, path: string, cimType: int, size: Option<Long>, create: bool)

  /** The import spec the endpoint returns, passed on unchanged to the lease request. */
  datatype ImportSpec = ImportSpec(id: string)

  /** An OvfCreateImportSpecResult. */
  datatype ImportSpecResult = ImportSpecResult(importSpec: ImportSpec, fileItems: seq<FileItem>, errors: seq<Fault>)

  /** One HttpNfcLeaseDeviceUrl of a ready lease. */
  datatype DeviceUrl = DeviceUrl(importKey: string, url: string)

  /** The HttpNfcLeaseInfo of a ready lease. */
  datatype LeaseInfo = LeaseInfo(deviceUrls: seq<DeviceUrl>)

  /** An OvfNetworkMapping: a network name of the descriptor and the network it is mapped to. */
  datatype NetworkMapping = NetworkMapping(name: string, network: Mor)

  /** One entry of an `ova` archive as the tar reader yields it; `content` is the text the
      entry's `size` bytes read as. */
  datatype TarEntry = TarEntry(name: string, size: Long, content: string)

  /** What opening the template file yields: a failure, or the file read two ways, as the
      entries of a tar stream and as the text of the whole file. */
  datatype TemplateFile = Unreadable(reason: string) | Readable(entries: seq<TarEntry>, text: string)

  /** ITransferVmdkFrom: a disk payload read from an archive entry of known size, or a file
      resolved in a directory. */
  datatype TransferSource = FromArchive(entryName: string, size: Long) | FromFile(directory: string, name: string)

  /** A TransferVmdkTask: where the payload comes from, the upload URL and the `create` flag. */
  datatype TransferTask = TransferTask(source: TransferSource, url: string, create: bool)

  /** The ProgressUpdater handed to the executor: asynchronous in parallel mode. */
  datatype ProgressUpdater = ProgressUpdater(async: bool, totalBytes: Long, lease: Mor)

  /** What the executor is given to run. */
  datatype Job = Progress(updater: ProgressUpdater) | Transfer(task: TransferTask)

  /** Why an operation threw. */
  datatype Failure =
    | Raised(message: string)    // an exception the service throws with this message
    | Remote(detail: string)     // a fault of the endpoint or of a lookup, propagated unchanged
    | Io(reason: string)         // the template file could not be opened
    | MalformedUrl(url: string)  // `new URL(..)` rejected a device URL
    | NullPointer                // a path without a parent was dereferenced, or an unset size unboxed

  /** The fields of VmInputs the deployment reads. */
  datatype VmInputs = VmInputs(
    clusterName: string,
    resourcePool: string,
    hostname: string,
    dataStore: string,
    folderName: string,
    locale: string,
    virtualMachineName: string,
    ipAllocScheme: string,
    ipProtocol: string,
    diskProvisioning: string)

  /** The state of an OvfCreateImportSpecParams, field by field; a field never set is None. */
  datatype SpecParams = SpecParams(
    hostSystem: Option<Mor>,
    deploymentOption: Option<string>,
    locale: Option<string>,
    entityName: Option<string>,
    ipAllocationPolicy: Option<string>,
    ipProtocol: Option<string>,
    diskProvisioning: Option<string>,
    networkMapping: seq<NetworkMapping>)

  /** The arguments of `createImportSpec`. */
  datatype ImportSpecRequest = ImportSpecRequest(ovfManager: Mor, descriptor: string, resourcePool: Mor, datastore: Mor, params: SpecParams)

  /** The arguments of the HTTP NFC lease request. */
  datatype LeaseRequest = LeaseRequest(importSpec: ImportSpec, resourcePool: Mor, host: Mor, folder: Mor)

  /** The two endpoint calls whose order the lease setup fixes. */
  datatype RemoteCall = CreateImportSpec(request: ImportSpecRequest) | RequestLease(lease: LeaseRequest)

  /** The management endpoint and the lookup helpers, as the answers they give. */
  datatype Endpoint = Endpoint(
    ovfManager: Result<Mor, Failure>,                        // retrieveServiceContent(..).getOvfManager()
    resourcePoolByName: string -> Result<Mor, Failure>,      // VmUtils.getMorResourcePool
    cluster: string -> Result<Mor, Failure>,                 // MorObjectHandler lookup of a cluster
    resourcePoolInCluster: (Mor, string) -> Result<Mor, Failure>, // VmUtils.getMorResourcePoolFromCluster
    host: string -> Result<Mor, Failure>,                    // VmUtils.getMorHost
    datastore: string -> Result<Mor, Failure>,               // VmUtils.getMorDataStore
    folder: string -> Result<Mor, Failure>,                  // VmUtils.getMorFolder
    network: string -> Result<Mor, Failure>,                 // MorObjectHandler lookup of a network
    createImportSpec: ImportSpecRequest -> Result<ImportSpecResult, Failure>,
    httpNfcLease: LeaseRequest -> Result<Mor, Failure>)      // OvfUtils.getHttpNfcLease

  /** What the JVM, the path library and constants outside the service decide. */
  datatype Runtime = Runtime(
    isOva: string -> bool,         // OvfUtils.isOva of a path
    isOvf: string -> bool,         // OvfUtils.isOvf of a path
    parent: string -> Option<string>, // Path.getParent, None for null
    isUrl: string -> bool,         // `new URL(..)` accepts the text
    lineSeparator: string,         // System.lineSeparator()
    diskDriveCimType: int)         // DISK_DRIVE_CIM_TYPE
}
