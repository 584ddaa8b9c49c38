/** SQLInputsValidator: the checks on the inputs of an SQL command, each appending at most one
    message to a shared validation list, in a fixed order. */
module SqlInputsValidator {
  import opened Results
  import opened DatabaseInputs

  /** The validation messages, one per message constant; the two formatted messages carry the
      value they were formatted with. */
  datatype Message =
    | InvalidDbType
    | InvalidUsername
    | InvalidPassword
    | InvalidCommand
    | InvalidTrustAllRoots
    | InvalidResultSetType
    | InvalidResultSetConcurrency
    | InvalidDbPort
    | InvalidInstance
    | InvalidDatabase
    | InvalidAuthType(authType: string)
    | InvalidAuthTypeWindows
    | InvalidIgnoreCase(ignoreCase: string)
    | InvalidTrustAllRootsRequire
    | InvalidNegativeTimeout

  /** The constant tables and helper predicates the validator consults, defined elsewhere in
      the repository. */
  datatype Constants = Constants(
    dbPortKeys: set<string>,          // DB_PORTS.keySet()
    concurValues: set<string>,        // CONCUR_VALUES.keySet()
    typeValues: set<string>,          // TYPE_VALUES.keySet()
    mssqlDbType: string,              // MSSQL_DB_TYPE
    sybaseDbType: string,             // SYBASE_DB_TYPE
    netcoolDbType: string,            // NETCOOL_DB_TYPE
    authWindows: string,              // AUTH_WINDOWS
    authSql: string,                  // AUTH_SQL
    isValidBoolean: string -> bool,   // BooleanUtilities.isValid
    isValidInt: string -> bool)       // NumberUtilities.isValidInt

  /** The inputs of validateSqlCommandInputs, in its parameter order. */
  datatype CommandInputs = CommandInputs(
    dbType: string, username: string, password: string, instance: string, dbPort: string,
    database: string, authenticationType: string, command: string, trustAllRoots: string,
    resultSetType: string, resultSetConcurrency: string)

  // ---------------------------------------------------------------------------------------
  // Predicates

  function ToLowerAscii(c: char): char {
    if 'A' <= c <= 'Z' then (c as int + 32) as char else c
  }

  /** String.equalsIgnoreCase, with case folding of the ASCII letters. */
  predicate EqualsIgnoreCase(a: string, b: string) {
    |a| == |b| && forall i :: 0 <= i < |a| ==> ToLowerAscii(a[i]) == ToLowerAscii(b[i])
  }

  /** Some element of the collection equals `s`, ignoring case. */
  predicate InCollectionIgnoreCase(s: string, collection: set<string>) {
    exists x :: x in collection && EqualsIgnoreCase(s, x)
  }

  /** No element of the collection equals `s`, ignoring case. */
  predicate NotInCollectionIgnoreCase(s: string, collection: set<string>) {
    forall x :: x in collection ==> !EqualsIgnoreCase(s, x)
  }

  /** StringUtils.isEmpty of a non-null string. */
  predicate IsEmpty(s: string) {
    |s| == 0
  }

  /** isValidDbType: the db type is a key of DB_PORTS, ignoring case. */
  predicate IsValidDbType(dbType: string, c: Constants) {
    InCollectionIgnoreCase(dbType, c.dbPortKeys)
  }

  /** isNotValidDbType. */
  predicate IsNotValidDbType(dbType: string, c: Constants) {
    NotInCollectionIgnoreCase(dbType, c.dbPortKeys)
  }

  /** isValidResultSetConcurrency: an exact key of CONCUR_VALUES. */
  predicate IsValidResultSetConcurrency(resultSetConcurrency: string, c: Constants) {
    resultSetConcurrency in c.concurValues
  }

  /** isValidResultSetType: an exact key of TYPE_VALUES. */
  predicate IsValidResultSetType(resultSetType: string, c: Constants) {
    resultSetType in c.typeValues
  }

  /** NO_EMPTY_DATABASE: the db types that may go without a database name. */
  function NoEmptyDatabase(c: Constants): set<string> {
    {c.sybaseDbType, c.mssqlDbType, c.netcoolDbType}
  }

  /** AUTH_TYPES. */
  function AuthTypes(c: Constants): set<string> {
    {c.authWindows, c.authSql}
  }

  /** The two db type predicates are complements of each other. */
  lemma DbTypePredicatesComplement(dbType: string, c: Constants)
    ensures IsNotValidDbType(dbType, c) <==> !IsValidDbType(dbType, c)
  {
  }

  // ---------------------------------------------------------------------------------------
  // What each check appends

  function DbTypeCheck(dbType: string, c: Constants): Option<Message> {
    if IsNotValidDbType(dbType, c) then Some(InvalidDbType) else None
  }

  function NoneEmptyCheck(toValidate: string, exceptionMessage: Message): Option<Message> {
    if IsEmpty(toValidate) then Some(exceptionMessage) else None
  }

  function TrustAllRootsCheck(trustAllRoots: string, c: Constants): Option<Message> {
    if c.isValidBoolean(trustAllRoots) then Some(InvalidTrustAllRoots) else None
  }

  function ResultSetTypeCheck(resultSetType: string, c: Constants): Option<Message> {
    if !IsValidResultSetType(resultSetType, c) then Some(InvalidResultSetType) else None
  }

  function ResultSetConcurrencyCheck(resultSetConcurrency: string, c: Constants): Option<Message> {
    if !IsValidResultSetConcurrency(resultSetConcurrency, c) then Some(InvalidResultSetConcurrency) else None
  }

  function DbPortCheck(dbPort: string, c: Constants): Option<Message> {
    if !IsEmpty(dbPort) && !c.isValidInt(dbPort) then Some(InvalidDbPort) else None
  }

  function InstanceCheck(instance: string, dbType: string, c: Constants): Option<Message> {
    if !IsEmpty(instance) && !EqualsIgnoreCase(c.mssqlDbType, dbType) then Some(InvalidInstance) else None
  }

  function DbNameCheck(dbName: string, dbType: string, c: Constants): Option<Message> {
    if IsEmpty(dbName) && NotInCollectionIgnoreCase(dbType, NoEmptyDatabase(c)) then Some(InvalidDatabase) else None
  }

  function AuthTypeCheck(authType: string, dbType: string, c: Constants): Option<Message> {
    if NotInCollectionIgnoreCase(authType, AuthTypes(c)) then Some(InvalidAuthType(authType))
    else if EqualsIgnoreCase(c.authWindows, authType) && !EqualsIgnoreCase(c.mssqlDbType, dbType) then Some(InvalidAuthTypeWindows)
    else None
  }

  function IgnoreCaseCheck(ignoreCase: string, c: Constants): Option<Message> {
    if !c.isValidBoolean(ignoreCase) then Some(InvalidIgnoreCase(ignoreCase)) else None
  }

  function TrustAllRootsRequireCheck(trustAllRoots: bool, trustStore: string, trustStorePassword: string): Option<Message> {
    if !trustAllRoots && (IsEmpty(trustStore) || IsEmpty(trustStorePassword)) then Some(InvalidTrustAllRootsRequire) else None
  }

  function TimeoutCheck(timeout: int): Option<Message> {
    if timeout < 0 then Some(InvalidNegativeTimeout) else None
  }

  /** What one check appends to the list. */
  function Present(check: Option<Message>): seq<Message> {
    match check
    case None => []
    case Some(m) => [m]
  }

  /** The list a run of checks leaves, in the order they run. */
  function Errors(checks: seq<Option<Message>>): seq<Message> {
    if |checks| == 0 then [] else Errors(checks[..|checks| - 1]) + Present(checks[|checks| - 1])
  }

  lemma ErrorsSnoc(checks: seq<Option<Message>>, check: Option<Message>)
    ensures Errors(checks + [check]) == Errors(checks) + Present(check)
  {
    assert (checks + [check])[..|checks|] == checks;
  }

  lemma ErrorsPrefix(checks: seq<Option<Message>>, k: nat)
    requires k < |checks|
    ensures Errors(checks[..k + 1]) == Errors(checks[..k]) + Present(checks[k])
  {
    assert checks[..k + 1][..k] == checks[..k];
  }

  /** The checks validateSqlCommandInputs runs, in order; the last three run only for a
      known db type, and report nothing otherwise. */
  function CommandChecks(inputs: CommandInputs, c: Constants): seq<Option<Message>> {
    var known := IsValidDbType(inputs.dbType, c);
    [ DbTypeCheck(inputs.dbType, c),
      NoneEmptyCheck(inputs.username, InvalidUsername),
      NoneEmptyCheck(inputs.password, InvalidPassword),
      NoneEmptyCheck(inputs.command, InvalidCommand),
      TrustAllRootsCheck(inputs.trustAllRoots, c),
      ResultSetTypeCheck(inputs.resultSetType, c),
      ResultSetConcurrencyCheck(inputs.resultSetConcurrency, c),
      DbPortCheck(inputs.dbPort, c),
      if known then InstanceCheck(inputs.instance, inputs.dbType, c) else None,
      if known then DbNameCheck(inputs.database, inputs.dbType, c) else None,
      if known then AuthTypeCheck(inputs.authenticationType, inputs.dbType, c) else None ]
  }

  /** The list validateSqlCommandInputs returns. */
  function CommandInputErrors(inputs: CommandInputs, c: Constants): seq<Message> {
    Errors(CommandChecks(inputs, c))
  }

  /** The checks validateSqlInputs runs, in order. */
  function SqlInputChecks(ignoreCase: string, trustAllRoots: bool, trustStore: string, trustStorePassword: string, c: Constants): seq<Option<Message>> {
    [IgnoreCaseCheck(ignoreCase, c), TrustAllRootsRequireCheck(trustAllRoots, trustStore, trustStorePassword)]
  }

  /** The list validateSqlInputs returns. */
  function SqlInputErrors(ignoreCase: string, trustAllRoots: bool, trustStore: string, trustStorePassword: string, c: Constants): seq<Message> {
    Errors(SqlInputChecks(ignoreCase, trustAllRoots, trustStore, trustStorePassword, c))
  }

  // ---------------------------------------------------------------------------------------
  // The validation list and the checks that append to it

  /** The ArrayList the checks append to. */
  class ValidationList {
    var messages: seq<Message>

    constructor ()
      ensures messages == []
    {
      messages := [];
    }

    method Add(message: Message)
      modifies this
      ensures messages == old(messages) + [message]
    {
      messages := messages + [message];
    }
  }

  method ValidateDbPort(dbPort: string, c: Constants, validationList: ValidationList)
    modifies validationList
    ensures validationList.messages == old(validationList.messages) + Present(DbPortCheck(dbPort, c))
  {
    if !IsEmpty(dbPort) && !c.isValidInt(dbPort) {
      validationList.Add(InvalidDbPort);
    }
  }

  method ValidateTrustAllRoots(trustAllRoots: string, c: Constants, validationList: ValidationList)
    modifies validationList
    ensures validationList.messages == old(validationList.messages) + Present(TrustAllRootsCheck(trustAllRoots, c))
  {
    if c.isValidBoolean(trustAllRoots) {
      validationList.Add(InvalidTrustAllRoots);
    }
  }

  method ValidateDbType(dbType: string, c: Constants, validationList: ValidationList)
    modifies validationList
    ensures validationList.messages == old(validationList.messages) + Present(DbTypeCheck(dbType, c))
  {
    if IsNotValidDbType(dbType, c) {
      validationList.Add(InvalidDbType);
    }
  }

  method ValidateTrustAllRootsRequire(trustAllRoots: bool, trustStore: string, trustStorePassword: string, validationList: ValidationList)
    modifies validationList
    ensures validationList.messages == old(validationList.messages) + Present(TrustAllRootsRequireCheck(trustAllRoots, trustStore, trustStorePassword))
  {
    if !trustAllRoots && (IsEmpty(trustStore) || IsEmpty(trustStorePassword)) {
      validationList.Add(InvalidTrustAllRootsRequire);
    }
  }

  /** validateTimeout; its only call site is commented out. */
  method ValidateTimeout(timeout: int, validationList: ValidationList)
    requires -0x8000_0000 <= timeout < 0x8000_0000
    modifies validationList
    ensures validationList.messages == old(validationList.messages) + Present(TimeoutCheck(timeout))
  {
    if timeout < 0 {
      validationList.Add(InvalidNegativeTimeout);
    }
  }

  method ValidateInstance(instance: string, dbType: string, c: Constants, validationList: ValidationList)
    modifies validationList
    ensures validationList.messages == old(validationList.messages) + Present(InstanceCheck(instance, dbType, c))
  {
    if !IsEmpty(instance) && !EqualsIgnoreCase(c.mssqlDbType, dbType) {
      validationList.Add(InvalidInstance);
    }
  }

  method ValidateAuthType(authType: string, dbType: string, c: Constants, validationList: ValidationList)
    modifies validationList
    ensures validationList.messages == old(validationList.messages) + Present(AuthTypeCheck(authType, dbType, c))
  {
    if NotInCollectionIgnoreCase(authType, AuthTypes(c)) {
      validationList.Add(InvalidAuthType(authType));
    } else if EqualsIgnoreCase(c.authWindows, authType) && !EqualsIgnoreCase(c.mssqlDbType, dbType) {
      validationList.Add(InvalidAuthTypeWindows);
    }
  }

  method ValidateDbName(dbName: string, dbType: string, c: Constants, validationList: ValidationList)
    modifies validationList
    ensures validationList.messages == old(validationList.messages) + Present(DbNameCheck(dbName, dbType, c))
  {
    if IsEmpty(dbName) && NotInCollectionIgnoreCase(dbType, NoEmptyDatabase(c)) {
      validationList.Add(InvalidDatabase);
    }
  }

  method ValidateIgnoreCase(ignoreCase: string, c: Constants, validationList: ValidationList)
    modifies validationList
    ensures validationList.messages == old(validationList.messages) + Present(IgnoreCaseCheck(ignoreCase, c))
  {
    if !c.isValidBoolean(ignoreCase) {
      validationList.Add(InvalidIgnoreCase(ignoreCase));
    }
  }

  method ValidateNoneEmpty(toValidate: string, exceptionMessage: Message, validationList: ValidationList)
    modifies validationList
    ensures validationList.messages == old(validationList.messages) + Present(NoneEmptyCheck(toValidate, exceptionMessage))
  {
    if IsEmpty(toValidate) {
      validationList.Add(exceptionMessage);
    }
  }

  method ValidateResultSetConcurrency(resultSetConcurrency: string, c: Constants, validationList: ValidationList)
    modifies validationList
    ensures validationList.messages == old(validationList.messages) + Present(ResultSetConcurrencyCheck(resultSetConcurrency, c))
  {
    if !IsValidResultSetConcurrency(resultSetConcurrency, c) {
      validationList.Add(InvalidResultSetConcurrency);
    }
  }

  method ValidateResultSetType(resultSetType: string, c: Constants, validationList: ValidationList)
    modifies validationList
    ensures validationList.messages == old(validationList.messages) + Present(ResultSetTypeCheck(resultSetType, c))
  {
    if !IsValidResultSetType(resultSetType, c) {
      validationList.Add(InvalidResultSetType);
    }
  }

  /** The eight checks of validateSqlCommandInputs that run whatever the db type. */
  method ValidateCommonCommandInputs(inputs: CommandInputs, c: Constants, validationList: ValidationList)
    modifies validationList
    requires validationList.messages == []
    ensures validationList.messages == Errors(CommandChecks(inputs, c)[..8])
  {
    ghost var checks := CommandChecks(inputs, c);
    assert checks[..0] == [];
    ValidateDbType(inputs.dbType, c, validationList);
    ErrorsPrefix(checks, 0);
    ValidateNoneEmpty(inputs.username, InvalidUsername, validationList);
    ErrorsPrefix(checks, 1);
    ValidateNoneEmpty(inputs.password, InvalidPassword, validationList);
    ErrorsPrefix(checks, 2);
    ValidateNoneEmpty(inputs.command, InvalidCommand, validationList);
    ErrorsPrefix(checks, 3);
    ValidateTrustAllRoots(inputs.trustAllRoots, c, validationList);
    ErrorsPrefix(checks, 4);
    ValidateResultSetType(inputs.resultSetType, c, validationList);
    ErrorsPrefix(checks, 5);
    ValidateResultSetConcurrency(inputs.resultSetConcurrency, c, validationList);
    ErrorsPrefix(checks, 6);
    ValidateDbPort(inputs.dbPort, c, validationList);
    ErrorsPrefix(checks, 7);
  }

  /** validateSqlCommandInputs. */
  method ValidateSqlCommandInputs(inputs: CommandInputs, c: Constants) returns (messages: seq<Message>)
    ensures messages == CommandInputErrors(inputs, c)
  {
    var validationList := new ValidationList();
    ghost var checks := CommandChecks(inputs, c);
    ValidateCommonCommandInputs(inputs, c, validationList);
    if IsValidDbType(inputs.dbType, c) {
      ValidateInstance(inputs.instance, inputs.dbType, c, validationList);
      ValidateDbName(inputs.database, inputs.dbType, c, validationList);
      ValidateAuthType(inputs.authenticationType, inputs.dbType, c, validationList);
    }
    ErrorsPrefix(checks, 8);
    ErrorsPrefix(checks, 9);
    ErrorsPrefix(checks, 10);
    assert checks[..11] == checks;
    return validationList.messages;
  }

  /** validateSqlInputs; the timeout check is not run. */
  method ValidateSqlInputs(sqlInputs: SqlInputs, c: Constants) returns (messages: seq<Message>)
    ensures messages == SqlInputErrors(sqlInputs.ignoreCase, sqlInputs.trustAllRoots, sqlInputs.trustStore, sqlInputs.trustStorePassword, c)
  {
    var validationList := new ValidationList();
    ValidateIgnoreCase(sqlInputs.ignoreCase, c, validationList);
    ValidateTrustAllRootsRequire(sqlInputs.trustAllRoots, sqlInputs.trustStore, sqlInputs.trustStorePassword, validationList);
    ghost var checks := SqlInputChecks(sqlInputs.ignoreCase, sqlInputs.trustAllRoots, sqlInputs.trustStore, sqlInputs.trustStorePassword, c);
    ErrorsSnoc([], checks[0]);
    ErrorsSnoc([checks[0]], checks[1]);
    assert checks == [] + [checks[0]] + [checks[1]];
    return validationList.messages;
  }

  // ---------------------------------------------------------------------------------------
  // Properties of the validation lists

  /** The position of each message's check in validateSqlCommandInputs. */
  function Rank(m: Message): nat {
    match m
    case InvalidDbType => 0
    case InvalidUsername => 1
    case InvalidPassword => 2
    case InvalidCommand => 3
    case InvalidTrustAllRoots => 4
    case InvalidResultSetType => 5
    case InvalidResultSetConcurrency => 6
    case InvalidDbPort => 7
    case InvalidInstance => 8
    case InvalidDatabase => 9
    case InvalidAuthType(_) => 10
    case InvalidAuthTypeWindows => 10
    case _ => 11
  }

  /** The messages appear in the order of their checks, each check at most once. */
  ghost predicate InCheckOrder(messages: seq<Message>) {
    forall i, j :: 0 <= i < j < |messages| ==> Rank(messages[i]) < Rank(messages[j])
  }

  /** A message is listed exactly when some check reported it. */
  lemma {:induction false} ErrorsMembership(checks: seq<Option<Message>>, m: Message)
    ensures m in Errors(checks) <==> exists k :: 0 <= k < |checks| && checks[k] == Some(m)
  {
    if |checks| > 0 {
      var init := checks[..|checks| - 1];
      ErrorsMembership(init, m);
      assert forall k :: 0 <= k < |init| ==> init[k] == checks[k];
    }
  }

  /** Checks whose messages rank by their position report in rank order, at most one message
      each. */
  lemma {:induction false} ErrorsRanked(checks: seq<Option<Message>>)
    requires forall k :: 0 <= k < |checks| && checks[k].Some? ==> Rank(checks[k].value) == k
    ensures InCheckOrder(Errors(checks)) && |Errors(checks)| <= |checks|
    ensures forall i :: 0 <= i < |Errors(checks)| ==> Rank(Errors(checks)[i]) < |checks|
  {
    if |checks| > 0 {
      var init := checks[..|checks| - 1];
      assert forall k :: 0 <= k < |init| ==> init[k] == checks[k];
      ErrorsRanked(init);
    }
  }

  /** Where every reported message sits at the position of its rank, a message is listed
      exactly when the check at that position reported it. */
  lemma ErrorsRankedMembership(checks: seq<Option<Message>>, m: Message)
    requires forall k :: 0 <= k < |checks| && checks[k].Some? ==> Rank(checks[k].value) == k
    ensures m in Errors(checks) <==> Rank(m) < |checks| && checks[Rank(m)] == Some(m)
  {
    ErrorsMembership(checks, m);
  }

  /** Each check of validateSqlCommandInputs can only report the message of its rank. */
  lemma CommandChecksRanked(inputs: CommandInputs, c: Constants)
    ensures var checks := CommandChecks(inputs, c);
            |checks| == 11 && forall k :: 0 <= k < |checks| && checks[k].Some? ==> Rank(checks[k].value) == k
  {
  }

  /** validateSqlCommandInputs lists the failed checks in their fixed order, at most one
      message per check and so at most eleven; every message is one of those eleven checks'. */
  lemma CommandErrorsInCheckOrder(inputs: CommandInputs, c: Constants)
    ensures InCheckOrder(CommandInputErrors(inputs, c))
    ensures |CommandInputErrors(inputs, c)| <= 11
    ensures forall i :: 0 <= i < |CommandInputErrors(inputs, c)| ==> Rank(CommandInputErrors(inputs, c)[i]) < 11
  {
    CommandChecksRanked(inputs, c);
    ErrorsRanked(CommandChecks(inputs, c));
  }

  /** validateSqlCommandInputs returns an empty list exactly when every check passes. */
  lemma CommandErrorsEmptyIff(inputs: CommandInputs, c: Constants)
    ensures CommandInputErrors(inputs, c) == [] <==>
              && IsValidDbType(inputs.dbType, c)
              && !IsEmpty(inputs.username) && !IsEmpty(inputs.password) && !IsEmpty(inputs.command)
              && !c.isValidBoolean(inputs.trustAllRoots)
              && IsValidResultSetType(inputs.resultSetType, c)
              && IsValidResultSetConcurrency(inputs.resultSetConcurrency, c)
              && (IsEmpty(inputs.dbPort) || c.isValidInt(inputs.dbPort))
              && (IsEmpty(inputs.instance) || EqualsIgnoreCase(c.mssqlDbType, inputs.dbType))
              && (!IsEmpty(inputs.database) || InCollectionIgnoreCase(inputs.dbType, NoEmptyDatabase(c)))
              && InCollectionIgnoreCase(inputs.authenticationType, AuthTypes(c))
              && (!EqualsIgnoreCase(c.authWindows, inputs.authenticationType) || EqualsIgnoreCase(c.mssqlDbType, inputs.dbType))
  {
    var checks := CommandChecks(inputs, c);
    CommandErrorConditions(inputs, c);
    DependentErrorConditions(inputs, c);
    assert checks[..0] == [];
    if forall k :: 0 <= k < |checks| ==> checks[k] == None {
      for k := 0 to 11
        invariant Errors(checks[..k]) == []
      {
        ErrorsPrefix(checks, k);
      }
      assert checks[..11] == checks;
    }
  }

  /** Each message of the checks that always run is listed exactly when its condition holds. */
  lemma CommandErrorConditions(inputs: CommandInputs, c: Constants)
    ensures var e := CommandInputErrors(inputs, c);
            && (InvalidDbType in e <==> !IsValidDbType(inputs.dbType, c))
            && (InvalidUsername in e <==> IsEmpty(inputs.username))
            && (InvalidPassword in e <==> IsEmpty(inputs.password))
            && (InvalidCommand in e <==> IsEmpty(inputs.command))
            && (InvalidTrustAllRoots in e <==> c.isValidBoolean(inputs.trustAllRoots))
            && (InvalidResultSetType in e <==> !IsValidResultSetType(inputs.resultSetType, c))
            && (InvalidResultSetConcurrency in e <==> !IsValidResultSetConcurrency(inputs.resultSetConcurrency, c))
            && (InvalidDbPort in e <==> !IsEmpty(inputs.dbPort) && !c.isValidInt(inputs.dbPort))
  {
    var checks := CommandChecks(inputs, c);
    CommandChecksRanked(inputs, c);
    ErrorsRankedMembership(checks, InvalidDbType);
    ErrorsRankedMembership(checks, InvalidUsername);
    ErrorsRankedMembership(checks, InvalidPassword);
    ErrorsRankedMembership(checks, InvalidCommand);
    ErrorsRankedMembership(checks, InvalidTrustAllRoots);
    ErrorsRankedMembership(checks, InvalidResultSetType);
    ErrorsRankedMembership(checks, InvalidResultSetConcurrency);
    ErrorsRankedMembership(checks, InvalidDbPort);
  }

  /** Each message of the checks that depend on the db type is listed exactly when the db type
      is known and its condition holds. */
  lemma DependentErrorConditions(inputs: CommandInputs, c: Constants)
    ensures var e, known := CommandInputErrors(inputs, c), IsValidDbType(inputs.dbType, c);
            && (InvalidInstance in e <==> known && !IsEmpty(inputs.instance) && !EqualsIgnoreCase(c.mssqlDbType, inputs.dbType))
            && (InvalidDatabase in e <==> known && IsEmpty(inputs.database) && NotInCollectionIgnoreCase(inputs.dbType, NoEmptyDatabase(c)))
            && (InvalidAuthType(inputs.authenticationType) in e <==>
                  known && NotInCollectionIgnoreCase(inputs.authenticationType, AuthTypes(c)))
            && (InvalidAuthTypeWindows in e <==>
                  known && InCollectionIgnoreCase(inputs.authenticationType, AuthTypes(c))
                  && EqualsIgnoreCase(c.authWindows, inputs.authenticationType) && !EqualsIgnoreCase(c.mssqlDbType, inputs.dbType))
  {
    var checks := CommandChecks(inputs, c);
    CommandChecksRanked(inputs, c);
    ErrorsRankedMembership(checks, InvalidInstance);
    ErrorsRankedMembership(checks, InvalidDatabase);
    ErrorsRankedMembership(checks, InvalidAuthType(inputs.authenticationType));
    ErrorsRankedMembership(checks, InvalidAuthTypeWindows);
  }

  /** The authentication check contributes at most one message, formatted with the given
      authentication type. */
  lemma AuthTypeAtMostOne(inputs: CommandInputs, c: Constants)
    ensures var e := CommandInputErrors(inputs, c);
            && !(InvalidAuthType(inputs.authenticationType) in e && InvalidAuthTypeWindows in e)
            && forall a :: InvalidAuthType(a) in e ==> a == inputs.authenticationType
  {
    var checks := CommandChecks(inputs, c);
    CommandChecksRanked(inputs, c);
    ErrorsRankedMembership(checks, InvalidAuthType(inputs.authenticationType));
    ErrorsRankedMembership(checks, InvalidAuthTypeWindows);
    forall a | InvalidAuthType(a) in CommandInputErrors(inputs, c)
      ensures a == inputs.authenticationType
    {
      ErrorsRankedMembership(checks, InvalidAuthType(a));
    }
  }

  /** With an unknown db type, the db type message heads the list and none of the instance,
      database or authentication messages appear. */
  lemma UnknownDbTypeSkipsDependentChecks(inputs: CommandInputs, c: Constants)
    requires !IsValidDbType(inputs.dbType, c)
    ensures var e := CommandInputErrors(inputs, c);
            && |e| > 0 && e[0] == InvalidDbType
            && forall i :: 0 <= i < |e| ==> Rank(e[i]) < 8
  {
    var checks := CommandChecks(inputs, c);
    var e := CommandInputErrors(inputs, c);
    CommandChecksRanked(inputs, c);
    CommandErrorsInCheckOrder(inputs, c);
    ErrorsRankedMembership(checks, InvalidDbType);
    var i :| 0 <= i < |e| && e[i] == InvalidDbType;
    forall j | 0 <= j < |e|
      ensures Rank(e[j]) < 8
    {
      ErrorsRankedMembership(checks, e[j]);
    }
  }

  /** validateSqlInputs: the ignore-case message exactly when the value is not a valid boolean,
      and the trust-store message exactly when roots are not all trusted and the store or its
      password is empty. */
  lemma SqlInputErrorConditions(ignoreCase: string, trustAllRoots: bool, trustStore: string, trustStorePassword: string, c: Constants)
    ensures var e := SqlInputErrors(ignoreCase, trustAllRoots, trustStore, trustStorePassword, c);
            && |e| <= 2
            && (forall m :: m in e ==> m.InvalidIgnoreCase? || m == InvalidTrustAllRootsRequire)
            && (InvalidIgnoreCase(ignoreCase) in e <==> !c.isValidBoolean(ignoreCase))
            && (forall x :: InvalidIgnoreCase(x) in e ==> x == ignoreCase)
            && (InvalidTrustAllRootsRequire in e <==> !trustAllRoots && (IsEmpty(trustStore) || IsEmpty(trustStorePassword)))
            && (e == [] <==> c.isValidBoolean(ignoreCase) && (trustAllRoots || (!IsEmpty(trustStore) && !IsEmpty(trustStorePassword))))
  {
    var checks := SqlInputChecks(ignoreCase, trustAllRoots, trustStore, trustStorePassword, c);
    ErrorsSnoc([], checks[0]);
    ErrorsSnoc([checks[0]], checks[1]);
    assert checks == [] + [checks[0]] + [checks[1]];
  }
}
