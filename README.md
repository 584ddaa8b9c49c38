# Template deployment and SQL input handling, modelled in Dafny

This project models three pieces of logic from the CloudSlang content actions:

- **Deploying a VM template to a vSphere endpoint** (`DeployTemplateService`). The model covers:
  - the `long` total of the disk-drive bytes;
  - aggregating the import-spec faults into one exception message;
  - the placement lookups and the call order of the lease setup: the import spec is requested and checked before the HTTP NFC lease is requested;
  - one network mapping per entry of the network map;
  - choosing the payload or descriptor of an `ova` archive or a bare `ovf` descriptor;
  - polling the lease until it is ready or failed;
  - matching lease device URLs to the import spec's file items, and handing the transfer tasks to the executor.
- **Validating the inputs of an SQL command** (`SQLInputsValidator`). Every check appends at most one message to a shared list, in a fixed order. The instance, database-name and authentication checks run only for a known db type.
- **Running a query and formatting its answer** (`SQLQueryService.executeSqlQuery`). The model covers:
  - the empty-command guard;
  - the header of column labels joined by the delimiter;
  - one text per result row, made of the trimmed (and, for Netcool, terminator-cut) values joined by the delimiter;
  - appending the header and the rows to the `SQLInputs` object;
  - a `finallyRan` flag that records that the `finally` block ran, which it does on every path past the guard.

The endpoint and its lookups, the path tests, URL parsing and the line separator are oracles: function-typed or plain fields of `Endpoint` and `Runtime`, and for the validator the tables and parsers of `Constants`, so the model reasons about every possible answer they give. The template file is an input value, `TemplateFile`: either unreadable, or its tar entries in order together with the text it reads as. The lease states observed by the polls, the error detail and the lease info are function parameters of `DeployTemplate`, given per lease.

Files:

- `results.dfy` (module `Results`): option and result types, and a first-match search.
- `deploy_types.dfy` (module `DeployTypes`): Java `long` with two's-complement wrap-around, the VIM values, and the endpoint and runtime oracles.
- `deploy_template.dfy` (module `DeployTemplate`): the operations of `DeployTemplateService`, and the service and its executor as classes.
- `sql_inputs.dfy` (module `DatabaseInputs`): the `SQLInputs` state the database code reads and writes.
- `sql_inputs_validator.dfy` (module `SqlInputsValidator`): the validator. The source's predicates `isValidDbType`, `isNotValidDbType`, `isValidResultSetConcurrency` and `isValidResultSetType` (`SQLInputsValidator.java:139-153`) are the predicates `IsValidDbType`, `IsNotValidDbType`, `IsValidResultSetConcurrency` and `IsValidResultSetType`. They carry no contract of their own; the rows of the validate checks below state what they decide.
- `sql_query_service.dfy` (module `SqlQueryService`): the query service.

Each loop of the source is a loop here, proved against a specification function. The properties are proved about that function:

- `GetDisksTotalNoBytes` is proved against `DiskBytes`;
- `TransferVmdkFiles` against `PlannedTransfers`;
- `GetHttpNfcLeaseInfoWhenReady` against `LeaseWaitOutcome`;
- `ValidateSqlCommandInputs` against `CommandInputErrors`;
- `ExecuteSqlQuery` against `Join` and `RowTexts`.

Exceptions are results:

- `Failure` for the deployment, with `Raised` for an exception the service throws with its message: a fixed text such as "Template file is not ova or ovf!", the fault report built from the import-spec faults, or "Failed to get a HTTP NFC Lease: " followed by the lease's error detail; `Remote` for a propagated endpoint fault; and `NullPointer` for a dereferenced missing value, such as a path without a parent or a file item's size. `OvfFileItem.getSize()` returns a boxed `Long` that the endpoint may leave unset, so a file item's size is optional;
- `QueryFailure` for the query service.

Two behaviours of the code that a reader might not expect; the model follows the code:

- The fault report puts a line separator after every fault's message, including the last one. A single fault "disk too large" yields "disk too large" followed by the separator, not the bare message.
- In `transferVmdkFiles` a device URL that no file item claims is skipped without an error. It is not a fatal mismatch.

## Model

| member | source | states |
|---|---|---|
| DeployTypes.WrapLong | cs-vmware/src/main/java/io/cloudslang/content/vmware/services/DeployTemplateService.java:232-235 | the value a Java `long` holds is congruent to the exact value modulo 2^64, and equal to it when the exact value is in range |
| DeployTypes.WrapLongAdd | cs-vmware/src/main/java/io/cloudslang/content/vmware/services/DeployTemplateService.java:235 | adding to the wrapped running total wraps to the same value as adding to the exact total, so `+=` in a loop wraps only the final sum |
| DeployTemplate.DiskItemsMembers | cs-vmware/src/main/java/io/cloudslang/content/vmware/services/DeployTemplateService.java:233-234 | an item is among the counted items exactly when it is in the list and its CIM type is the disk-drive type |
| DeployTemplate.DiskBytesIsSumOfDiskItems | cs-vmware/src/main/java/io/cloudslang/content/vmware/services/DeployTemplateService.java:231-239 | the total exists exactly when every disk-drive item has a size, and is then the sum of the sizes of exactly the disk-drive items; other items contribute nothing, and an empty list gives 0 |
| DeployTemplate.DiskBytesUnsized | cs-vmware/src/main/java/io/cloudslang/content/vmware/services/DeployTemplateService.java:233-235 | the total is missing exactly when some item of the disk-drive type has no size; an unsized item of another type is never read |
| DeployTemplate.DiskBytesAppend | cs-vmware/src/main/java/io/cloudslang/content/vmware/services/DeployTemplateService.java:231-239 | the total over two lists put together is the sum of their totals, and is missing when either part's total is |
| DeployTemplate.GetDisksTotalNoBytes | cs-vmware/src/main/java/io/cloudslang/content/vmware/services/DeployTemplateService.java:231-239 | a null-pointer failure when some disk-drive item has no size (unboxing its `Long` for `+=`); otherwise the disk byte total wrapped to a `long`, which is the exact sum of the disk-drive sizes whenever that sum fits in a `long` |
| DeployTemplate.FaultReportPrefix | cs-vmware/src/main/java/io/cloudslang/content/vmware/services/DeployTemplateService.java:131-134 | the report of the first i faults is a prefix of the whole report; the builder only ever appends |
| DeployTemplate.FaultReportLayout | cs-vmware/src/main/java/io/cloudslang/content/vmware/services/DeployTemplateService.java:131-135 | each fault's message ("null" for a null message) sits, in list order, right after the report of the faults before it and is followed by one line separator; the last fault's separator ends the report |
| DeployTemplate.CheckImportSpecResultForErrors | cs-vmware/src/main/java/io/cloudslang/content/vmware/services/DeployTemplateService.java:129-137 | throws exactly when the fault list is non-empty, and then with the fault report as message |
| DeployTemplate.GetOvfNetworkMappings | cs-vmware/src/main/java/io/cloudslang/content/vmware/services/DeployTemplateService.java:117-127 | succeeds exactly when every map value resolves to a network; then there is one mapping per entry in entry order, named by the key, with the resolved network; otherwise the error is that of the first value that fails to resolve |
| DeployTemplate.TransferSourceCases | cs-vmware/src/main/java/io/cloudslang/content/vmware/services/DeployTemplateService.java:169-184 | for an `ova`, the first entry in archive order whose name starts with the vmdk name, with its size; an `ova` without one fails with "Template file is not ova or ovf!" just like a file that is neither; for an `ovf`, the vmdk name resolved in the parent directory, and a null-pointer failure without a parent; an unopenable archive is an I/O failure |
| DeployTemplate.GetTransferVmdk | cs-vmware/src/main/java/io/cloudslang/content/vmware/services/DeployTemplateService.java:169-184 | the forward scan over the tar entries yields exactly `TransferSourceFor` |
| DeployTemplate.DescriptorText | cs-vmware/src/main/java/io/cloudslang/content/vmware/services/DeployTemplateService.java:200-215 | for an `ova`, the content of the first entry whose name is an `ovf`, and "Template file could not be read!" without one; for a bare `ovf`, the whole file; any other file fails with the same message; an unopenable file is an I/O failure |
| DeployTemplate.GetOvfTemplateAsString | cs-vmware/src/main/java/io/cloudslang/content/vmware/services/DeployTemplateService.java:200-215 | the forward scan over the tar entries yields exactly `DescriptorText` |
| DeployTemplate.GetHttpNfcLeaseInfoWhenReady | cs-vmware/src/main/java/io/cloudslang/content/vmware/services/DeployTemplateService.java:187-197 | the polling loop over the observed states ends with exactly the outcome and poll count of `LeaseWaitOutcome` |
| DeployTemplate.LeaseReadyIff | cs-vmware/src/main/java/io/cloudslang/content/vmware/services/DeployTemplateService.java:187-197 | the lease info is returned exactly when some poll sees "ready" and no poll after the first sees "error" before it; the first poll's "error" is not acted on; the ready state is the last one polled; a first poll of "ready" is the only poll |
| DeployTemplate.LeaseFailedIff | cs-vmware/src/main/java/io/cloudslang/content/vmware/services/DeployTemplateService.java:189-193 | the wait throws exactly when a poll after the first sees "error" with no "ready" before it, with "Failed to get a HTTP NFC Lease: " followed by the error detail; the failing poll is the last one |
| DeployTemplate.MatchingItem | cs-vmware/src/main/java/io/cloudslang/content/vmware/services/DeployTemplateService.java:142-148 | none exactly when no file item has the URL's import key as device id; otherwise the first item, in list order, that has it |
| DeployTemplate.FindFileItem | cs-vmware/src/main/java/io/cloudslang/content/vmware/services/DeployTemplateService.java:142-148 | the forward scan with `break` over the file items finds exactly `MatchingItem`: the first item of the URL's import key, or none |
| DeployTemplate.TaskFor | cs-vmware/src/main/java/io/cloudslang/content/vmware/services/DeployTemplateService.java:154-160 | a malformed URL fails first; otherwise the payload lookup's failure, or a task carrying the payload source, the device URL and the item's create flag |
| DeployTemplate.GetTransferVmdkTask | cs-vmware/src/main/java/io/cloudslang/content/vmware/services/DeployTemplateService.java:154-160 | builds exactly `TaskFor` |
| DeployTemplate.Matched | cs-vmware/src/main/java/io/cloudslang/content/vmware/services/DeployTemplateService.java:141-150 | no more matched pairs than device URLs |
| DeployTemplate.MatchedOne | cs-vmware/src/main/java/io/cloudslang/content/vmware/services/DeployTemplateService.java:141-148 | one device URL gives its own pair with its first matching file item, or no pair when no item has its key |
| DeployTemplate.MatchedAppend | cs-vmware/src/main/java/io/cloudslang/content/vmware/services/DeployTemplateService.java:141-150 | the pairs of two URL lists put together are the pairs of the first followed by those of the second; with `MatchedOne`, each occurrence of a URL adds at most its own pair, in URL order |
| DeployTemplate.MatchedPairs | cs-vmware/src/main/java/io/cloudslang/content/vmware/services/DeployTemplateService.java:141-148 | every matched pair joins a device URL of the lease to the first file item of its key |
| DeployTemplate.MatchedAll | cs-vmware/src/main/java/io/cloudslang/content/vmware/services/DeployTemplateService.java:141-148 | when every device URL has a file item, every URL is matched, in list order |
| DeployTemplate.UnmatchedUrlSkipped | cs-vmware/src/main/java/io/cloudslang/content/vmware/services/DeployTemplateService.java:141-150 | a device URL that no file item claims changes neither the tasks submitted nor the outcome |
| DeployTemplate.PlannedTransfersBuildMatches | cs-vmware/src/main/java/io/cloudslang/content/vmware/services/DeployTemplateService.java:139-160 | the submitted tasks are the tasks of the matched URLs, in URL order, up to the first that cannot be built, whose failure is the outcome; without a failure there is one task per matched URL |
| DeployTemplate.TransferJobs | cs-vmware/src/main/java/io/cloudslang/content/vmware/services/DeployTemplateService.java:146 | one transfer job per task, in task order |
| DeployTemplate.DeployTemplateService.TransferVmdkFiles | cs-vmware/src/main/java/io/cloudslang/content/vmware/services/DeployTemplateService.java:139-151 | the nested loop with `break` submits to the executor exactly the planned tasks, after what was already submitted, and ends with the planned outcome; the executor is not shut down |
| DeployTemplate.OvfCreateImportSpecParams.constructor | cs-vmware/src/main/java/io/cloudslang/content/vmware/services/DeployTemplateService.java:219 | a fresh params object has no field set and an empty mapping list |
| DeployTemplate.GetOvfCreateImportSpecParams | cs-vmware/src/main/java/io/cloudslang/content/vmware/services/DeployTemplateService.java:218-229 | a fresh object holds the host, an empty deployment option, the VM's locale, name, IP allocation scheme, IP protocol and disk provisioning, and exactly the given network mappings |
| DeployTemplate.ResourcePoolFor | cs-vmware/src/main/java/io/cloudslang/content/vmware/services/DeployTemplateService.java:90-97 | a blank cluster name selects the pool by pool name; otherwise the named cluster is looked up, and its failure or the pool of that name inside it is the result |
| DeployTemplate.PlacementFor | cs-vmware/src/main/java/io/cloudslang/content/vmware/services/DeployTemplateService.java:88-100 | succeeds exactly when the OVF manager, resource pool, host, datastore and folder all resolve, and holds them; otherwise the failure of the first failing lookup, in that order |
| DeployTemplate.CreateLeaseSetup | cs-vmware/src/main/java/io/cloudslang/content/vmware/services/DeployTemplateService.java:85-111 | through `LeaseSetupSpec`: no endpoint call before the lookups, the mappings and the descriptor succeed, and then their first failure is the result; the import-spec request carries the manager, descriptor, pool, datastore and the params; a fault report or a failed request stops before the lease; the lease is requested exactly when the import spec came back without faults, with that spec and the same pool, host and folder; success returns that lease and import-spec result |
| DeployTemplate.DeployTemplateService.constructor | cs-vmware/src/main/java/io/cloudslang/content/vmware/services/DeployTemplateService.java:63-65 | the service owns a new executor of the given parallelism, with no jobs, not shut down |
| DeployTemplate.DeployTemplateService.DeployTemplate | cs-vmware/src/main/java/io/cloudslang/content/vmware/services/DeployTemplateService.java:67-83 | the setup is exactly what `CreateLeaseSetup` promises for the same endpoint, VM inputs, template and network map (`LeaseSetupSpec`); a failed setup, a failed lease or a lease that never settles submits nothing and does not shut the executor down; a ready lease whose import spec has a disk-drive item without a size aborts with a null-pointer failure, also submitting nothing; otherwise, for a ready lease, the executor receives the progress updater with the wrapped disk total (asynchronous exactly in parallel mode) followed by the planned transfer jobs; it is shut down exactly when all tasks were submitted |
| SqlInputsValidator.DbTypePredicatesComplement | cs-database/src/main/java/io/cloudslang/content/database/utils/SQLInputsValidator.java:139-145 | `isNotValidDbType` is the negation of `isValidDbType` |
| SqlInputsValidator.ValidateDbPort | cs-database/src/main/java/io/cloudslang/content/database/utils/SQLInputsValidator.java:65-69 | appends the db port message exactly when the port is non-empty and not a valid int, and nothing else |
| SqlInputsValidator.ValidateTrustAllRoots | cs-database/src/main/java/io/cloudslang/content/database/utils/SQLInputsValidator.java:71-75 | appends the trust-all-roots message exactly when the value is a valid boolean, as written |
| SqlInputsValidator.ValidateDbType | cs-database/src/main/java/io/cloudslang/content/database/utils/SQLInputsValidator.java:77-81 | appends the db type message exactly when the type is no key of the port table, ignoring case |
| SqlInputsValidator.ValidateTrustAllRootsRequire | cs-database/src/main/java/io/cloudslang/content/database/utils/SQLInputsValidator.java:83-87 | appends the trust-store message exactly when roots are not all trusted and the store or its password is empty |
| SqlInputsValidator.ValidateTimeout | cs-database/src/main/java/io/cloudslang/content/database/utils/SQLInputsValidator.java:89-93 | appends the negative-timeout message exactly when the timeout is negative |
| SqlInputsValidator.ValidateInstance | cs-database/src/main/java/io/cloudslang/content/database/utils/SQLInputsValidator.java:95-99 | appends the instance message exactly when an instance is given and the db type is not MSSQL, ignoring case |
| SqlInputsValidator.ValidateAuthType | cs-database/src/main/java/io/cloudslang/content/database/utils/SQLInputsValidator.java:101-107 | appends the formatted auth-type message for a type outside the two authentication types, otherwise the Windows message for Windows authentication with a non-MSSQL db type, otherwise nothing |
| SqlInputsValidator.ValidateDbName | cs-database/src/main/java/io/cloudslang/content/database/utils/SQLInputsValidator.java:109-113 | appends the database message exactly when the name is empty and the db type is none of Sybase, MSSQL and Netcool, ignoring case |
| SqlInputsValidator.ValidateIgnoreCase | cs-database/src/main/java/io/cloudslang/content/database/utils/SQLInputsValidator.java:115-119 | appends the formatted ignore-case message exactly when the value is not a valid boolean |
| SqlInputsValidator.ValidateNoneEmpty | cs-database/src/main/java/io/cloudslang/content/database/utils/SQLInputsValidator.java:121-125 | appends the given message exactly when the value is empty |
| SqlInputsValidator.ValidateResultSetConcurrency | cs-database/src/main/java/io/cloudslang/content/database/utils/SQLInputsValidator.java:127-131 | appends the concurrency message exactly when the value is no key of the concurrency table |
| SqlInputsValidator.ValidateResultSetType | cs-database/src/main/java/io/cloudslang/content/database/utils/SQLInputsValidator.java:133-137 | appends the result-set type message exactly when the value is no key of the type table |
| SqlInputsValidator.ValidateCommonCommandInputs | cs-database/src/main/java/io/cloudslang/content/database/utils/SQLInputsValidator.java:38-46 | the eight checks that always run leave exactly the messages of the first eight checks, in order |
| SqlInputsValidator.ValidateSqlCommandInputs | cs-database/src/main/java/io/cloudslang/content/database/utils/SQLInputsValidator.java:36-53 | returns exactly the messages of the eleven checks in their order, the last three only for a known db type |
| SqlInputsValidator.ValidateSqlInputs | cs-database/src/main/java/io/cloudslang/content/database/utils/SQLInputsValidator.java:56-63 | returns exactly the ignore-case message then the trust-store message, each when its check fails; the timeout check is not run |
| SqlInputsValidator.CommandErrorsInCheckOrder | cs-database/src/main/java/io/cloudslang/content/database/utils/SQLInputsValidator.java:36-53 | every message is one of the eleven checks' own messages, and they appear in the fixed check order (db type, username, password, command, trust-all-roots, result-set type, concurrency, port, instance, database, authentication), each check at most once, so at most eleven |
| SqlInputsValidator.CommandErrorsEmptyIff | cs-database/src/main/java/io/cloudslang/content/database/utils/SQLInputsValidator.java:36-53 | the list is empty exactly when every one of the eleven checks passes |
| SqlInputsValidator.CommandErrorConditions | cs-database/src/main/java/io/cloudslang/content/database/utils/SQLInputsValidator.java:39-46 | each message of the eight unconditional checks is listed exactly when its condition holds; an empty username, password or command each gives its own message; an empty port is accepted |
| SqlInputsValidator.DependentErrorConditions | cs-database/src/main/java/io/cloudslang/content/database/utils/SQLInputsValidator.java:47-51 | the instance, database and both authentication messages are listed exactly when the db type is known and their conditions hold |
| SqlInputsValidator.AuthTypeAtMostOne | cs-database/src/main/java/io/cloudslang/content/database/utils/SQLInputsValidator.java:101-107 | the authentication check never lists both of its messages, and the formatted one always carries the given authentication type |
| SqlInputsValidator.UnknownDbTypeSkipsDependentChecks | cs-database/src/main/java/io/cloudslang/content/database/utils/SQLInputsValidator.java:47-51 | with an unknown db type the db type message heads the list, and no instance, database or authentication message appears |
| SqlInputsValidator.SqlInputErrorConditions | cs-database/src/main/java/io/cloudslang/content/database/utils/SQLInputsValidator.java:56-63 | at most two messages, each the ignore-case or the trust-store message; the ignore-case message exactly when the value is not a valid boolean, carrying that value; the trust-store message exactly when roots are not all trusted and a store input is empty; empty exactly when both pass |
| SqlQueryService.JoinSnoc | cs-database/src/main/java/io/cloudslang/content/database/services/SQLQueryService.java:45-50 | adding one more part adds the delimiter and the part, the delimiter only after a first part |
| SqlQueryService.JoinLength | cs-database/src/main/java/io/cloudslang/content/database/services/SQLQueryService.java:55-56 | n parts joined carry exactly n - 1 delimiters besides their own characters |
| SqlQueryService.SplitJoin | cs-database/src/main/java/io/cloudslang/content/database/services/SQLQueryService.java:45-50 | with a one-character delimiter that occurs in no label, splitting the joined text at the delimiter gives back the labels |
| SqlQueryService.TrimStart | cs-database/src/main/java/io/cloudslang/content/database/services/SQLQueryService.java:57 | the leading run of characters up to U+0020 that trim drops |
| SqlQueryService.TrimEnd | cs-database/src/main/java/io/cloudslang/content/database/services/SQLQueryService.java:57 | the trailing run of characters up to U+0020 that trim drops |
| SqlQueryService.TrimKeepsMiddle | cs-database/src/main/java/io/cloudslang/content/database/services/SQLQueryService.java:57 | trim keeps a contiguous middle of the value, drops only characters up to U+0020 at both ends, and what it keeps neither starts nor ends with one |
| SqlQueryService.TrimIdempotent | cs-database/src/main/java/io/cloudslang/content/database/services/SQLQueryService.java:57 | trimming a trimmed value changes nothing |
| SqlQueryService.RenderCells | cs-database/src/main/java/io/cloudslang/content/database/services/SQLQueryService.java:57-62 | a row renders exactly when it holds no SQL NULL, and then each value is trimmed and, for Netcool, cut at its terminator, one per column in order |
| SqlQueryService.RowText | cs-database/src/main/java/io/cloudslang/content/database/services/SQLQueryService.java:54-65 | the column loop yields the rendered values joined by the delimiter, and fails exactly on a row holding an SQL NULL |
| SqlQueryService.RowTextsOnePerRow | cs-database/src/main/java/io/cloudslang/content/database/services/SQLQueryService.java:53-67 | one text per row, in result order, each the row's rendered values joined by the delimiter; the loop passes exactly when no row holds an SQL NULL, and otherwise stops at the first such row with a null-pointer failure |
| SqlQueryService.RowTextsOneValuePerColumn | cs-database/src/main/java/io/cloudslang/content/database/services/SQLQueryService.java:53-66 | for an answer whose rows hold one value per column, there are at most as many row texts as rows, and row text k is the join of row k's rendered values, of which there are exactly as many as column labels |
| SqlQueryService.ZeroColumnRows | cs-database/src/main/java/io/cloudslang/content/database/services/SQLQueryService.java:43-56 | an answer with zero column labels gives an empty header, an empty text for every row, and no failure |
| SqlQueryService.ColumnHeader | cs-database/src/main/java/io/cloudslang/content/database/services/SQLQueryService.java:45-50 | the header is the old header text followed by the labels joined by the delimiter, with no delimiter before the first label |
| SqlQueryService.ExecuteSqlQuery | cs-database/src/main/java/io/cloudslang/content/database/services/SQLQueryService.java:26-71 | for an answer whose rows hold one value per column: an empty command throws "command input is empty." before any connection and changes nothing; otherwise `finallyRan` records that the `finally` block ran, on every path; a failing query changes nothing; an answer extends the header by the joined labels (unchanged for zero columns) and the rows by the row texts, with earlier rows kept, and fails exactly as `RowTexts` does; no other field changes |

## Left out

- `sleep(100)` between lease polls is not modelled.
- The time-outs and exceptions of the polls themselves are not modelled.
- The lease states are a finite sequence of observations, given per lease together with the error detail and the lease info. When they run out before the lease settles, the outcome is `LeasePending`, where the source would go on polling without bound.
- The VIM SOAP calls and the `MorObjectHandler`/`VmUtils` lookups are oracle answers of `Endpoint`. Building `ConnectionResources` and the service instance is not modelled.
- TaskFor: a `TransferVmdkTask` in the source also holds the progress updater that `deployTemplate` submits first, and reports its progress to it; the model's `TransferTask` does not carry the updater, so that sharing is not modelled.
- `CustomExecutor`, the progress updaters and `TransferVmdkTask` are not part of this model: their concurrency, their background work and the HTTP upload they make. The executor is the list of jobs it was handed and a shut-down flag.
- Tar decoding by Commons Compress is not modelled. An archive is its entries in order, each entry with its name, size and the text its bytes read as.
- Opening and reading the template file, and UTF-8 decoding, are not modelled. A file either cannot be opened, giving one I/O failure, or reads as entries and as one text.
- The resource leaks of the unclosed streams are not modelled.
- `OvfUtils.isOva`/`isOvf`, `Path.getParent`, `new URL(..)`, `System.lineSeparator()` and `DISK_DRIVE_CIM_TYPE` are oracles of `Runtime`. Resolving a name in a directory is the pair of directory and name.
- `getOvfPropertyMappings` returns null without reading its argument. The property map is accepted and never used.
- `StringUtilities.isBlank` is not part of this model. It is taken to mean that every character passes `Character.isWhitespace` as it stands for characters below U+0080; other Unicode whitespace is not modelled.
- `SQLInputsUtils.inCollectionIgnoreCase`/`notInCollectionIgnoreCase` are not part of this model. They are taken to mean that some or no element matches by `equalsIgnoreCase`.
- `equalsIgnoreCase` is modelled with ASCII case folding only.
- `BooleanUtilities.isValid`, `NumberUtilities.isValidInt` and the tables `DB_PORTS`, `CONCUR_VALUES` and `TYPE_VALUES` are oracles and sets of `Constants`.
- The message texts are constructors of `Message`. A `String.format` message carries its argument.
- Java null strings are not modelled: every string input is non-null, and `isEmpty` is length zero.
- `validateTimeout` is modelled, but nothing calls it, because its call in `validateSqlInputs` is commented out. Its argument is a Java `int`.
- The JDBC work is not modelled: the connection, read-only mode, statement types and concurrency, the query timeout, and closing the connection. The database's response is an input, either a rejection or column labels and rows of values, and `finallyRan` reports that the `finally` block ran.
- `SQLUtils.processNullTerminatedString` is not part of this model. It is a function parameter.
- An SQL NULL value is `None`. `trim()` on it throws, which ends the row loop with a null-pointer failure after the earlier rows were appended. The `"null"` branch of the row loop cannot be reached and is not modelled.
- Only the `SQLInputs` fields that the validator and the query service read or write are modelled.
- The rows of a database answer are taken to hold one value per column (`RowsFitColumns`), as the result set is read by column index up to the column count. An answer whose rows have other widths is not modelled.
