/** The state of an SQLInputs object that the query service and the input validator read and
    write. Strings are non-null. */
module DatabaseInputs {

  class SqlInputs {
    var sqlCommand: string
    var strDelim: string
    var netcool: bool
    /** The header text the query service extends with the column labels. */
    var strColumns: string
    /** The row texts the query service appends to, one per result row. */
    var lRows: seq<string>
    var ignoreCase: string
    var trustAllRoots: bool
    var trustStore: string
    var trustStorePassword: string

    constructor (sqlCommand: string, strDelim: string, netcool: bool, ignoreCase: string,
                 trustAllRoots: bool, trustStore: string, trustStorePassword: string)
      ensures this.sqlCommand == sqlCommand && this.strDelim == strDelim && this.netcool == netcool
      ensures this.ignoreCase == ignoreCase && this.trustAllRoots == trustAllRoots
      ensures this.trustStore == trustStore && this.trustStorePassword == trustStorePassword
      ensures strColumns == "" && lRows == []
    {
      this.sqlCommand, this.strDelim, this.netcool := sqlCommand, strDelim, netcool;
      this.ignoreCase, this.trustAllRoots := ignoreCase, trustAllRoots;
      this.trustStore, this.trustStorePassword := trustStore, trustStorePassword;
      strColumns, lRows := "", [];
    }
  }
}
