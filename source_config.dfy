/**
 * DbEventSourceConfig and DbEventSource: the Debezium properties of a source, from fixed defaults,
 * the OpenMRS runtime properties and the JDBC driver's reading of the connection URL, plus the
 * include and exclude table lists.
 *
 * A Properties table is a map from key to value. Properties.setProperty with a null value is a
 * NullPointerException, so values that may be null are Option<string>.
 */
module SourceConfig {
  import opened Wrappers
  import opened Text

  // Keys of the Debezium properties.
  const NAME: string := "name"
  const CONNECTOR_CLASS: string := "connector.class"
  const OFFSET_STORAGE: string := "offset.storage"
  const OFFSET_FILE: string := "offset.storage.file.filename"
  const OFFSET_FLUSH_INTERVAL: string := "offset.flush.interval.ms"
  const OFFSET_FLUSH_TIMEOUT: string := "offset.flush.timeout.ms"
  const INCLUDE_SCHEMA_CHANGES: string := "include.schema.changes"
  const SERVER_ID: string := "database.server.id"
  const SERVER_NAME: string := "database.server.name"
  const HISTORY: string := "database.history"
  const HISTORY_FILE: string := "database.history.file.filename"
  const DECIMAL_HANDLING: string := "decimal.handling.mode"
  const TOMBSTONES: string := "tombstones.on.delete"
  const SNAPSHOT_MODE: string := "snapshot.mode"
  const USER: string := "database.user"
  const PASSWORD: string := "database.password"
  const HOSTNAME: string := "database.hostname"
  const PORT: string := "database.port"
  const DBNAME: string := "database.dbname"
  const DATABASE_INCLUDE_LIST: string := "database.include.list"
  const TABLE_INCLUDE_LIST: string := "table.include.list"
  const TABLE_EXCLUDE_LIST: string := "table.exclude.list"

  // Keys of the OpenMRS runtime properties.
  const CONNECTION_USERNAME: string := "connection.username"
  const CONNECTION_PASSWORD: string := "connection.password"
  const CONNECTION_URL: string := "connection.url"

  // Default values.
  const MYSQL_CONNECTOR: string := "io.debezium.connector.mysql.MySqlConnector"
  const FILE_OFFSET_STORE: string := "org.apache.kafka.connect.storage.FileOffsetBackingStore"
  const FILE_HISTORY: string := "io.debezium.relational.history.FileDatabaseHistory"
  const ZERO: string := "0"
  const FLUSH_TIMEOUT: string := "15000"
  const FALSE: string := "false"
  const DOUBLE: string := "double"
  const WHEN_NEEDED: string := "when_needed"
  const OFFSETS_SUFFIX: string := "_offsets.dat"
  const HISTORY_SUFFIX: string := "_schema_history.dat"
  const DATA_DIRECTORY: string := "dbevent"
  const ALL_TABLES: string := ".*"
  const INVALID_URL: string := "Invalid connection.url: "
  const DEFAULT_RETRY_INTERVAL: int := 60

  // Driver property names, compared in lower case.
  const HOST_PROPERTY: string := "host"
  const PORT_PROPERTY: string := "port"
  const DBNAME_PROPERTY: string := "dbname"

  /** The absolute path of a file in a directory (the directory taken to be absolute). */
  function FilePath(directory: string, name: string): string {
    directory + "/" + name
  }

  /** Properties.getProperty: null for an absent key. */
  function Get(properties: map<string, string>, key: string): (r: Option<string>)
    ensures r.Some? <==> key in properties
    ensures r.Some? ==> r.value == properties[key]
  {
    if key in properties then Some(properties[key]) else None
  }

  /** The defaults both classes set, with the offsets and schema history files in `directory`. */
  function CommonDefaults(sourceId: int, sourceName: string, directory: string): map<string, string> {
    var id := DecimalString(sourceId);
    map[
      NAME := sourceName,
      CONNECTOR_CLASS := MYSQL_CONNECTOR,
      OFFSET_STORAGE := FILE_OFFSET_STORE,
      OFFSET_FILE := FilePath(directory, id + OFFSETS_SUFFIX),
      OFFSET_FLUSH_INTERVAL := ZERO,
      OFFSET_FLUSH_TIMEOUT := FLUSH_TIMEOUT,
      INCLUDE_SCHEMA_CHANGES := FALSE,
      SERVER_ID := id,
      SERVER_NAME := sourceName,
      HISTORY := FILE_HISTORY,
      HISTORY_FILE := FilePath(directory, id + HISTORY_SUFFIX),
      DECIMAL_HANDLING := DOUBLE,
      TOMBSTONES := FALSE]
  }

  /** DbEventSourceConfig's defaults: files in the module data directory, snapshots when needed. */
  function ConfigDefaults(sourceId: int, sourceName: string, moduleDataDir: string): map<string, string> {
    CommonDefaults(sourceId, sourceName, moduleDataDir)[SNAPSHOT_MODE := WHEN_NEEDED]
  }

  /** DbEventSource's defaults: files under `dbevent` in the application data directory. */
  function SourceDefaults(sourceId: int, sourceName: string, applicationDataDir: string): map<string, string> {
    CommonDefaults(sourceId, sourceName, FilePath(applicationDataDir, DATA_DIRECTORY))
  }

  /** Both names are the source name, the server id is the source id in decimal, and the files are named from it. */
  lemma DefaultsNamed(sourceId: int, sourceName: string, directory: string)
    ensures var m, id := CommonDefaults(sourceId, sourceName, directory), DecimalString(sourceId);
      NAME in m && m[NAME] == sourceName && SERVER_NAME in m && m[SERVER_NAME] == sourceName &&
      SERVER_ID in m && m[SERVER_ID] == id && ParseDecimal(m[SERVER_ID]) == Some(sourceId) &&
      OFFSET_FILE in m && m[OFFSET_FILE] == FilePath(directory, id + OFFSETS_SUFFIX) &&
      HISTORY_FILE in m && m[HISTORY_FILE] == FilePath(directory, id + HISTORY_SUFFIX) &&
      SNAPSHOT_MODE !in m
  {
    DecimalRoundTrip(sourceId);
  }

  /** Only DbEventSourceConfig sets a snapshot mode; the two differ in nothing else but the directory. */
  lemma SnapshotModeDefault(sourceId: int, sourceName: string, directory: string)
    ensures ConfigDefaults(sourceId, sourceName, directory)[SNAPSHOT_MODE] == WHEN_NEEDED
    ensures SNAPSHOT_MODE !in SourceDefaults(sourceId, sourceName, directory)
    ensures forall k :: k != SNAPSHOT_MODE ==>
      (k in ConfigDefaults(sourceId, sourceName, directory) <==> k in CommonDefaults(sourceId, sourceName, directory))
  {
    DefaultsNamed(sourceId, sourceName, FilePath(directory, DATA_DIRECTORY));
  }

  // ---------------------------------------------------------------------------------------------
  // Driver properties

  /** A DriverPropertyInfo: the name and the possibly null value the driver reads from the URL. */
  datatype DriverProperty = DriverProperty(name: string, value: Option<string>)

  /** setProperty, with None standing for the NullPointerException of a null value. */
  function SetTo(properties: map<string, string>, key: string, value: Option<string>): Option<map<string, string>> {
    if value.None? then None else Some(properties[key := value.value])
  }

  /** The driver property names that are copied: host, port and dbname, in any letter case. */
  predicate Mapped(name: string) {
    var n := LowerCase(name);
    n == HOST_PROPERTY || n == PORT_PROPERTY || n == DBNAME_PROPERTY
  }

  /** A driver property that stops the constructor: a mapped name with a null value. */
  predicate Fails(p: DriverProperty) {
    Mapped(p.name) && p.value.None?
  }

  /** The keys the driver properties may set; `table.include.list` only for DbEventSource. */
  function DriverKeys(allTables: bool): set<string> {
    {HOSTNAME, PORT, DBNAME, DATABASE_INCLUDE_LIST} + (if allTables then {TABLE_INCLUDE_LIST} else {})
  }

  /**
   * One driver property: host and port are copied to their keys, dbname to the database name and
   * the database include list (and, for DbEventSource, `dbname.*` to the table include list).
   * None stands for a failure, a null value.
   */
  function ApplyDriverProperty(properties: map<string, string>, p: DriverProperty, allTables: bool): Option<map<string, string>> {
    var n := LowerCase(p.name);
    if n == HOST_PROPERTY then SetTo(properties, HOSTNAME, p.value)
    else if n == PORT_PROPERTY then SetTo(properties, PORT, p.value)
    else if n == DBNAME_PROPERTY then
      if p.value.None? then None
      else
        var withDatabase := properties[DBNAME := p.value.value][DATABASE_INCLUDE_LIST := p.value.value];
        Some(if allTables then withDatabase[TABLE_INCLUDE_LIST := p.value.value + ALL_TABLES] else withDatabase)
    else Some(properties)
  }

  /** The driver properties in order; None once one of them fails. */
  function ApplyDriver(properties: map<string, string>, ps: seq<DriverProperty>, allTables: bool): Option<map<string, string>> {
    if ps == [] then Some(properties)
    else
      match ApplyDriver(properties, ps[..|ps| - 1], allTables)
      case None => None
      case Some(before) => ApplyDriverProperty(before, ps[|ps| - 1], allTables)
  }

  lemma LowerCaseIdempotent(s: string)
    ensures LowerCase(LowerCase(s)) == LowerCase(s)
  {
    var l := LowerCase(s);
    forall i | 0 <= i < |s|
      ensures LowerCase(l)[i] == l[i]
    {
      assert l[i] == ToLower(s[i]);
    }
  }

  /** The name of a driver property matters only up to letter case. */
  lemma DriverNameCaseInsensitive(properties: map<string, string>, name: string, value: Option<string>, allTables: bool)
    ensures ApplyDriverProperty(properties, DriverProperty(name, value), allTables) ==
      ApplyDriverProperty(properties, DriverProperty(LowerCase(name), value), allTables)
    ensures Mapped(name) <==> Mapped(LowerCase(name))
  {
    LowerCaseIdempotent(name);
  }

  /** A property that is not mapped is ignored; a mapped one sets exactly its keys to its value. */
  lemma DriverPropertyEffect(properties: map<string, string>, p: DriverProperty, allTables: bool)
    ensures !Mapped(p.name) ==> ApplyDriverProperty(properties, p, allTables) == Some(properties)
    ensures ApplyDriverProperty(properties, p, allTables).None? <==> Fails(p)
    ensures var r := ApplyDriverProperty(properties, p, allTables);
      r.Some? ==> forall k :: k !in DriverKeys(allTables) ==>
        (k in r.value <==> k in properties) && (k in properties ==> r.value[k] == properties[k])
    ensures LowerCase(p.name) == DBNAME_PROPERTY && p.value.Some? ==>
      var r := ApplyDriverProperty(properties, p, allTables).value;
      r[DBNAME] == p.value.value && r[DATABASE_INCLUDE_LIST] == p.value.value &&
      (allTables ==> r[TABLE_INCLUDE_LIST] == p.value.value + ALL_TABLES)
  {
  }

  /** The driver properties fail exactly when a mapped one has a null value. */
  lemma {:induction false} DriverFailsExactly(properties: map<string, string>, ps: seq<DriverProperty>, allTables: bool)
    ensures ApplyDriver(properties, ps, allTables).None? <==>
      exists i :: 0 <= i < |ps| && Fails(ps[i])
  {
    if ps != [] {
      var init := ps[..|ps| - 1];
      DriverFailsExactly(properties, init, allTables);
      if ApplyDriver(properties, init, allTables).Some? {
        DriverPropertyEffect(ApplyDriver(properties, init, allTables).value, ps[|ps| - 1], allTables);
      }
      if exists i :: 0 <= i < |ps| && Fails(ps[i]) {
        var i :| 0 <= i < |ps| && Fails(ps[i]);
        if i < |init| {
          assert init[i] == ps[i];
        }
      }
      if exists i :: 0 <= i < |init| && Fails(init[i]) {
        var i :| 0 <= i < |init| && Fails(init[i]);
        assert init[i] == ps[i];
      }
    }
  }

  /** The driver properties change no key but their own. */
  lemma {:induction false} DriverChangesOnlyItsKeys(properties: map<string, string>, ps: seq<DriverProperty>, allTables: bool, k: string)
    requires k !in DriverKeys(allTables)
    ensures var r := ApplyDriver(properties, ps, allTables);
      r.Some? ==> (k in r.value <==> k in properties) && (k in properties ==> r.value[k] == properties[k])
  {
    if ps != [] {
      var init := ps[..|ps| - 1];
      DriverChangesOnlyItsKeys(properties, init, allTables, k);
      if ApplyDriver(properties, init, allTables).Some? {
        DriverPropertyEffect(ApplyDriver(properties, init, allTables).value, ps[|ps| - 1], allTables);
      }
    }
  }

  lemma ApplyDriverSnoc(properties: map<string, string>, ps: seq<DriverProperty>, i: int, allTables: bool)
    requires 0 <= i < |ps|
    ensures ApplyDriver(properties, ps[..i + 1], allTables) ==
      (match ApplyDriver(properties, ps[..i], allTables)
       case None => None
       case Some(before) => ApplyDriverProperty(before, ps[i], allTables))
  {
    assert ps[..i + 1][..i] == ps[..i];
  }

  lemma {:induction false} ApplyDriverStaysFailed(properties: map<string, string>, ps: seq<DriverProperty>, i: int, allTables: bool)
    requires 0 <= i <= |ps| && ApplyDriver(properties, ps[..i], allTables).None?
    ensures ApplyDriver(properties, ps, allTables).None?
    decreases |ps| - i
  {
    if i < |ps| {
      ApplyDriverSnoc(properties, ps, i, allTables);
      ApplyDriverStaysFailed(properties, ps, i + 1, allTables);
    } else {
      assert ps[..i] == ps;
    }
  }

  /**
   * The rest of either constructor: the user and the password from the runtime properties (a null one
   * is a NullPointerException), then the driver properties of the connection URL; `drivers` stands
   * for DriverManager.getDriver(url).getPropertyInfo(url, null), None when either throws. Any failure
   * there is an IllegalArgumentException naming the URL.
   */
  function Connected(properties: map<string, string>, runtime: map<string, string>,
                     drivers: Option<string> -> Option<seq<DriverProperty>>, allTables: bool): Result<map<string, string>> {
    var user := Get(runtime, CONNECTION_USERNAME);
    var password := Get(runtime, CONNECTION_PASSWORD);
    var url := Get(runtime, CONNECTION_URL);
    var invalid := Err(IllegalArgumentException(INVALID_URL + Render(url)));
    if user.None? || password.None? then Err(NullPointerException)
    else
      var withCredentials := properties[USER := user.value][PASSWORD := password.value];
      match drivers(url)
      case None => invalid
      case Some(ps) =>
        match ApplyDriver(withCredentials, ps, allTables)
        case None => invalid
        case Some(configured) => Ok(configured)
  }

  /** The connection step fails exactly when a credential is missing, the URL has no driver, or a mapped value is null. */
  lemma ConnectedFailsExactly(properties: map<string, string>, runtime: map<string, string>,
                              drivers: Option<string> -> Option<seq<DriverProperty>>, allTables: bool)
    ensures var r := Connected(properties, runtime, drivers, allTables); var url := Get(runtime, CONNECTION_URL);
      (r.Err? && r.error == NullPointerException <==> CONNECTION_USERNAME !in runtime || CONNECTION_PASSWORD !in runtime) &&
      (r.Err? && r.error != NullPointerException ==> r.error == IllegalArgumentException(INVALID_URL + Render(url))) &&
      (CONNECTION_USERNAME in runtime && CONNECTION_PASSWORD in runtime ==>
        (r.Err? <==> (drivers(url).None? ||
          exists i :: 0 <= i < |drivers(url).value| && Fails(drivers(url).value[i]))))
  {
    var user := Get(runtime, CONNECTION_USERNAME);
    var password := Get(runtime, CONNECTION_PASSWORD);
    var url := Get(runtime, CONNECTION_URL);
    if user.Some? && password.Some? && drivers(url).Some? {
      DriverFailsExactly(properties[USER := user.value][PASSWORD := password.value], drivers(url).value, allTables);
    }
  }

  /**
   * A successful connection step sets the credentials from the runtime properties and keeps every key
   * that neither they nor the driver properties write: the names, the server id and the offsets and
   * schema history files (what getOffsetsFile and getDatabaseHistoryFile read) stay the defaults.
   */
  lemma ConnectedKeepsOtherKeys(properties: map<string, string>, runtime: map<string, string>,
                                drivers: Option<string> -> Option<seq<DriverProperty>>, allTables: bool, k: string)
    requires k !in DriverKeys(allTables) + {USER, PASSWORD}
    ensures var r := Connected(properties, runtime, drivers, allTables);
      r.Ok? ==> (k in r.value <==> k in properties) && (k in properties ==> r.value[k] == properties[k])
    ensures var r := Connected(properties, runtime, drivers, allTables);
      r.Ok? ==> Get(r.value, USER) == Get(runtime, CONNECTION_USERNAME) && Get(r.value, PASSWORD) == Get(runtime, CONNECTION_PASSWORD)
  {
    var user := Get(runtime, CONNECTION_USERNAME);
    var password := Get(runtime, CONNECTION_PASSWORD);
    var url := Get(runtime, CONNECTION_URL);
    if user.Some? && password.Some? && drivers(url).Some? {
      var withCredentials := properties[USER := user.value][PASSWORD := password.value];
      DriverChangesOnlyItsKeys(withCredentials, drivers(url).value, allTables, k);
      DriverChangesOnlyItsKeys(withCredentials, drivers(url).value, allTables, USER);
      DriverChangesOnlyItsKeys(withCredentials, drivers(url).value, allTables, PASSWORD);
    }
  }

  // ---------------------------------------------------------------------------------------------
  // Table lists

  /** `dbname.` when the database name is not blank, nothing otherwise. */
  function TablePrefix(databaseName: Option<string>): string {
    if IsNotBlank(databaseName) then databaseName.value + "." else ""
  }

  /** A table with the prefix put in front, unless it already starts with it. */
  function Prefixed(prefix: string, table: string): string {
    if StartsWith(table, prefix) then table else prefix + table
  }

  function PrefixAll(prefix: string, tables: seq<string>): (r: seq<string>)
    ensures |r| == |tables|
  {
    if tables == [] then [] else PrefixAll(prefix, tables[..|tables| - 1]) + [Prefixed(prefix, tables[|tables| - 1])]
  }

  lemma {:induction false} PrefixAllIndex(prefix: string, tables: seq<string>, i: int)
    requires 0 <= i < |tables|
    ensures PrefixAll(prefix, tables)[i] == Prefixed(prefix, tables[i])
  {
    if i < |tables| - 1 {
      PrefixAllIndex(prefix, tables[..|tables| - 1], i);
    }
  }

  /** The table list value: the prefixed tables joined by commas. */
  function TableList(prefix: string, tables: seq<string>): string {
    JoinWith(",", PrefixAll(prefix, tables))
  }

  /** configureTablesToInclude / configureTablesToExclude: nothing for a null or empty list. */
  function TablesConfigured(properties: map<string, string>, key: string, tables: Option<seq<string>>): map<string, string> {
    if tables.None? || |tables.value| == 0 then properties
    else properties[key := TableList(TablePrefix(Get(properties, DBNAME)), tables.value)]
  }

  /** Every entry ends up with the prefix, exactly once: an entry already carrying it is kept as it is. */
  lemma PrefixedOnce(prefix: string, table: string)
    ensures StartsWith(Prefixed(prefix, table), prefix)
    ensures Prefixed(prefix, Prefixed(prefix, table)) == Prefixed(prefix, table)
    ensures StartsWith(table, prefix) ==> Prefixed(prefix, table) == table
    ensures !StartsWith(table, prefix) ==> Prefixed(prefix, table) == prefix + table
  {
    assert (prefix + table)[..|prefix|] == prefix;
  }

  /** A blank or missing database name leaves the entries as they are. */
  lemma {:induction false} BlankDatabaseKeepsEntries(databaseName: Option<string>, tables: seq<string>)
    requires !IsNotBlank(databaseName)
    ensures PrefixAll(TablePrefix(databaseName), tables) == tables
  {
    if tables != [] {
      BlankDatabaseKeepsEntries(databaseName, tables[..|tables| - 1]);
      assert tables == tables[..|tables| - 1] + [tables[|tables| - 1]];
    }
  }

  /** With no comma in the entries or the database name, the list splits back into one slot per entry. */
  lemma TableListSlots(databaseName: Option<string>, tables: seq<string>)
    requires tables != []
    requires forall i :: 0 <= i < |tables| ==> ',' !in tables[i]
    requires databaseName.Some? ==> ',' !in databaseName.value
    ensures var prefix := TablePrefix(databaseName);
      SplitOn(TableList(prefix, tables), ',') == PrefixAll(prefix, tables) &&
      |SplitOn(TableList(prefix, tables), ',')| == |tables|
  {
    var prefix := TablePrefix(databaseName);
    var entries := PrefixAll(prefix, tables);
    forall i | 0 <= i < |entries|
      ensures ',' !in entries[i]
    {
      PrefixAllIndex(prefix, tables, i);
      assert ',' !in prefix + tables[i];
    }
    assert "," == [','];
    SplitJoinRoundTrip(entries, ',');
  }

  /** Configuring the same list twice is the same as configuring it once. */
  lemma TablesConfiguredIdempotent(properties: map<string, string>, key: string, tables: Option<seq<string>>)
    requires key != DBNAME
    ensures TablesConfigured(TablesConfigured(properties, key, tables), key, tables) == TablesConfigured(properties, key, tables)
  {
  }

  // ---------------------------------------------------------------------------------------------
  // The classes

  class DbEventSourceConfig {
    const sourceId: int
    const sourceName: string
    var config: map<string, string>
    var retryIntervalSeconds: int

    /** The defaults of the constructor, with the files in the module data directory. */
    constructor (sourceId: int, sourceName: string, moduleDataDir: string)
      ensures this.sourceId == sourceId && this.sourceName == sourceName
      ensures config == ConfigDefaults(sourceId, sourceName, moduleDataDir)
      ensures retryIntervalSeconds == DEFAULT_RETRY_INTERVAL
    {
      this.sourceId := sourceId;
      this.sourceName := sourceName;
      config := ConfigDefaults(sourceId, sourceName, moduleDataDir);
      retryIntervalSeconds := DEFAULT_RETRY_INTERVAL;
    }

    function GetProperty(key: string): (r: Option<string>)
      reads this
      ensures r == Get(config, key)
    {
      Get(config, key)
    }

    /** setProperty: a null value is a NullPointerException and changes nothing. */
    method SetProperty(key: string, value: Option<string>) returns (error: Option<Exception>)
      modifies this
      ensures value.None? ==> error == Some(NullPointerException) && config == old(config)
      ensures value.Some? ==> error.None? && config == old(config)[key := value.value]
      ensures value.Some? ==> GetProperty(key) == value
      ensures retryIntervalSeconds == old(retryIntervalSeconds)
    {
      if value.None? {
        return Some(NullPointerException);
      }
      config := config[key := value.value];
      error := None;
    }

    /** The constructor from the runtime properties on: credentials, then the driver properties. */
    method Connect(runtime: map<string, string>, drivers: Option<string> -> Option<seq<DriverProperty>>)
      returns (error: Option<Exception>)
      modifies this
      ensures var r := Connected(old(config), runtime, drivers, false);
        (error.None? <==> r.Ok?) && (r.Ok? ==> config == r.value) && (r.Err? ==> error == Some(r.error))
      ensures retryIntervalSeconds == old(retryIntervalSeconds)
    {
      error := SetProperty(USER, Get(runtime, CONNECTION_USERNAME));
      if error.Some? {
        return;
      }
      error := SetProperty(PASSWORD, Get(runtime, CONNECTION_PASSWORD));
      if error.Some? {
        return;
      }
      var url := Get(runtime, CONNECTION_URL);
      var invalid := IllegalArgumentException(INVALID_URL + Render(url));
      var driver := drivers(url);
      if driver.None? {
        return Some(invalid);
      }
      var ps := driver.value;
      ghost var start := config;
      var i := 0;
      while i < |ps|
        invariant 0 <= i <= |ps|
        invariant ApplyDriver(start, ps[..i], false) == Some(config)
        invariant retryIntervalSeconds == old(retryIntervalSeconds)
      {
        ApplyDriverSnoc(start, ps, i, false);
        var p := ps[i];
        var name := LowerCase(p.name);
        var failed: Option<Exception> := None;
        if name == HOST_PROPERTY {
          failed := SetProperty(HOSTNAME, p.value);
        } else if name == PORT_PROPERTY {
          failed := SetProperty(PORT, p.value);
        } else if name == DBNAME_PROPERTY {
          failed := SetProperty(DBNAME, p.value);
          if failed.None? {
            failed := SetProperty(DATABASE_INCLUDE_LIST, p.value);
          }
        }
        if failed.Some? {
          ApplyDriverStaysFailed(start, ps, i + 1, false);
          return Some(invalid);
        }
        i := i + 1;
      }
      assert ps[..i] == ps;
    }

    /** configureTablesToInclude: writes `table.include.list` and nothing else. */
    method ConfigureTablesToInclude(tables: Option<seq<string>>)
      modifies this
      ensures config == TablesConfigured(old(config), TABLE_INCLUDE_LIST, tables)
      ensures retryIntervalSeconds == old(retryIntervalSeconds)
    {
      if tables.Some? && |tables.value| > 0 {
        var prefix := TablePrefix(GetProperty(DBNAME));
        var tableConfig := TableList(prefix, tables.value);
        config := config[TABLE_INCLUDE_LIST := tableConfig];
      }
    }

    /** configureTablesToExclude: writes `table.exclude.list` and nothing else. */
    method ConfigureTablesToExclude(tables: Option<seq<string>>)
      modifies this
      ensures config == TablesConfigured(old(config), TABLE_EXCLUDE_LIST, tables)
      ensures retryIntervalSeconds == old(retryIntervalSeconds)
    {
      if tables.Some? && |tables.value| > 0 {
        var prefix := TablePrefix(GetProperty(DBNAME));
        var tableConfig := TableList(prefix, tables.value);
        config := config[TABLE_EXCLUDE_LIST := tableConfig];
      }
    }
  }

  /** new DbEventSourceConfig(sourceId, sourceName, context), which throws when connecting fails. */
  method NewDbEventSourceConfig(sourceId: int, sourceName: string, moduleDataDir: string, runtime: map<string, string>,
                                drivers: Option<string> -> Option<seq<DriverProperty>>) returns (r: Result<DbEventSourceConfig>)
    ensures var expected := Connected(ConfigDefaults(sourceId, sourceName, moduleDataDir), runtime, drivers, false);
      (r.Err? <==> expected.Err?) && (r.Err? ==> r.error == expected.error) &&
      (r.Ok? ==> fresh(r.value) && r.value.config == expected.value && r.value.retryIntervalSeconds == DEFAULT_RETRY_INTERVAL)
  {
    var c := new DbEventSourceConfig(sourceId, sourceName, moduleDataDir);
    var error := c.Connect(runtime, drivers);
    if error.Some? {
      return Err(error.value);
    }
    return Ok(c);
  }

  class DbEventSource {
    const sourceId: int
    const sourceName: string
    var config: map<string, string>
    var retryIntervalSeconds: int

    /** The defaults of the constructor, with the files under `dbevent` in the application data directory. */
    constructor (sourceId: int, sourceName: string, applicationDataDir: string)
      ensures this.sourceId == sourceId && this.sourceName == sourceName
      ensures config == SourceDefaults(sourceId, sourceName, applicationDataDir)
      ensures retryIntervalSeconds == DEFAULT_RETRY_INTERVAL
    {
      this.sourceId := sourceId;
      this.sourceName := sourceName;
      config := SourceDefaults(sourceId, sourceName, applicationDataDir);
      retryIntervalSeconds := DEFAULT_RETRY_INTERVAL;
    }

    function GetProperty(key: string): (r: Option<string>)
      reads this
      ensures r == Get(config, key)
    {
      Get(config, key)
    }

    /** setProperty: a null value is a NullPointerException and changes nothing. */
    method SetProperty(key: string, value: Option<string>) returns (error: Option<Exception>)
      modifies this
      ensures value.None? ==> error == Some(NullPointerException) && config == old(config)
      ensures value.Some? ==> error.None? && config == old(config)[key := value.value]
      ensures value.Some? ==> GetProperty(key) == value
      ensures retryIntervalSeconds == old(retryIntervalSeconds)
    {
      if value.None? {
        return Some(NullPointerException);
      }
      config := config[key := value.value];
      error := None;
    }

    /** The constructor from the runtime properties on; a dbname also includes all of its tables. */
    method Connect(runtime: map<string, string>, drivers: Option<string> -> Option<seq<DriverProperty>>)
      returns (error: Option<Exception>)
      modifies this
      ensures var r := Connected(old(config), runtime, drivers, true);
        (error.None? <==> r.Ok?) && (r.Ok? ==> config == r.value) && (r.Err? ==> error == Some(r.error))
      ensures retryIntervalSeconds == old(retryIntervalSeconds)
    {
      error := SetProperty(USER, Get(runtime, CONNECTION_USERNAME));
      if error.Some? {
        return;
      }
      error := SetProperty(PASSWORD, Get(runtime, CONNECTION_PASSWORD));
      if error.Some? {
        return;
      }
      var url := Get(runtime, CONNECTION_URL);
      var invalid := IllegalArgumentException(INVALID_URL + Render(url));
      var driver := drivers(url);
      if driver.None? {
        return Some(invalid);
      }
      var ps := driver.value;
      ghost var start := config;
      var i := 0;
      while i < |ps|
        invariant 0 <= i <= |ps|
        invariant ApplyDriver(start, ps[..i], true) == Some(config)
        invariant retryIntervalSeconds == old(retryIntervalSeconds)
      {
        ApplyDriverSnoc(start, ps, i, true);
        var p := ps[i];
        var name := LowerCase(p.name);
        var failed: Option<Exception> := None;
        if name == HOST_PROPERTY {
          failed := SetProperty(HOSTNAME, p.value);
        } else if name == PORT_PROPERTY {
          failed := SetProperty(PORT, p.value);
        } else if name == DBNAME_PROPERTY {
          failed := SetProperty(DBNAME, p.value);
          if failed.None? {
            failed := SetProperty(DATABASE_INCLUDE_LIST, p.value);
            failed := SetProperty(TABLE_INCLUDE_LIST, Some(p.value.value + ALL_TABLES));
          }
        }
        if failed.Some? {
          ApplyDriverStaysFailed(start, ps, i + 1, true);
          return Some(invalid);
        }
        i := i + 1;
      }
      assert ps[..i] == ps;
    }

    /** configureTablesToInclude(List): writes `table.include.list` and nothing else. */
    method ConfigureTablesToInclude(tables: Option<seq<string>>)
      modifies this
      ensures config == TablesConfigured(old(config), TABLE_INCLUDE_LIST, tables)
      ensures retryIntervalSeconds == old(retryIntervalSeconds)
    {
      if tables.Some? && |tables.value| > 0 {
        var prefix := TablePrefix(GetProperty(DBNAME));
        var tableConfig := TableList(prefix, tables.value);
        config := config[TABLE_INCLUDE_LIST := tableConfig];
      }
    }
  }

  /** new DbEventSource(sourceId, sourceName, context), which throws when connecting fails. */
  method NewDbEventSource(sourceId: int, sourceName: string, applicationDataDir: string, runtime: map<string, string>,
                          drivers: Option<string> -> Option<seq<DriverProperty>>) returns (r: Result<DbEventSource>)
    ensures var expected := Connected(SourceDefaults(sourceId, sourceName, applicationDataDir), runtime, drivers, true);
      (r.Err? <==> expected.Err?) && (r.Err? ==> r.error == expected.error) &&
      (r.Ok? ==> fresh(r.value) && r.value.config == expected.value && r.value.retryIntervalSeconds == DEFAULT_RETRY_INTERVAL)
  {
    var c := new DbEventSource(sourceId, sourceName, applicationDataDir);
    var error := c.Connect(runtime, drivers);
    if error.Some? {
      return Err(error.value);
    }
    return Ok(c);
  }
}
