/** Table provisioning (cloudtest.js, `getOrCreateTable`, `getTable`,
    `createTable`, `run`) against an abstract table store. The store is a
    value: the tables that exist, each with the fields it was created with,
    and the log of every request it has received. Whether a call meets a
    transport or authorisation failure is a parameter of the call. */
module Provisioning {
  import opened Results
  import opened Schema
  import opened Requests

  /** A request as the store received it. */
  datatype Request = Lookup(get: GetTableParams) | Create(create: CreateTableParams)

  datatype Store = Store(tables: map<TableReference, seq<Field>>, log: seq<Request>)

  /** A call's settlement together with the store it leaves behind. */
  datatype Reply = Reply(result: Result<TableResource, RemoteError>, store: Store)

  /** How many create requests `log` holds. */
  function CreateCount(log: seq<Request>): nat
  {
    if |log| == 0 then 0 else CreateCount(log[..|log| - 1]) + (if log[|log| - 1].Create? then 1 else 0)
  }

  /** How many lookup requests `log` holds. */
  function LookupCount(log: seq<Request>): nat
  {
    if |log| == 0 then 0 else LookupCount(log[..|log| - 1]) + (if log[|log| - 1].Lookup? then 1 else 0)
  }

  /** Appending one request adds one to the count of its kind. */
  lemma CountAppend(log: seq<Request>, r: Request)
    ensures CreateCount(log + [r]) == CreateCount(log) + (if r.Create? then 1 else 0)
    ensures LookupCount(log + [r]) == LookupCount(log) + (if r.Lookup? then 1 else 0)
  {
    assert (log + [r])[..|log|] == log;
  }

  /** The store's side of `bigquery.tables.get` (the source's `getTable` builds
      the request, `Requests.GetTableRequest`): the stored table, or not-found; a
      failure in transit replaces the answer. The request is logged either way. */
  function StoreGet(s: Store, p: GetTableParams, fault: Option<RemoteError>): Reply
  {
    var after := s.(log := s.log + [Lookup(p)]);
    var target := GetTarget(p);
    if fault.Some? then Reply(Failure(fault.value), after)
    else if target in s.tables then Reply(Success(TableResource(TableKind, target, TableSchema(s.tables[target]))), after)
    else Reply(Failure(NotFound), after)
  }

  /** The store's side of `bigquery.tables.insert` (the source's `createTable`
      builds the request, `Requests.CreateTableRequest`): the table is created with the
      requested fields unless it already exists; a failure in transit
      replaces the answer and creates nothing. The request is logged either way. */
  function StoreInsert(s: Store, p: CreateTableParams, fault: Option<RemoteError>): Reply
  {
    var target := p.resource.tableReference;
    var logged := s.log + [Create(p)];
    if fault.Some? then Reply(Failure(fault.value), s.(log := logged))
    else if target in s.tables then Reply(Failure(Duplicate), s.(log := logged))
    else Reply(Success(p.resource), Store(s.tables[target := p.resource.schema.fields], logged))
  }

  /** The configured table exists in `s` and a lookup of it meets no failure. */
  predicate LookupFinds(s: Store, cfg: TableConfig, lookupFault: Option<RemoteError>)
  {
    lookupFault.None? && TargetOf(cfg) in s.tables
  }

  /** Looks the configured table up and, when the lookup fails for any
      reason at all, asks for it to be created; the create's settlement is
      then the result. Exactly one lookup and at most one create per call. */
  function GetOrCreateTable(s: Store, cfg: TableConfig, lookupFault: Option<RemoteError>, createFault: Option<RemoteError>): (r: Reply)
    ensures s.log <= r.store.log
    ensures s.tables.Keys <= r.store.tables.Keys
    ensures forall t :: t in s.tables ==> r.store.tables[t] == s.tables[t]
    ensures r.result.Success? ==> TargetOf(cfg) in r.store.tables
    ensures r.result.Success? <==>
      LookupFinds(s, cfg, lookupFault) || (createFault.None? && TargetOf(cfg) !in s.tables)
  {
    var get := GetTableRequest(cfg);
    var create := CreateTableRequest(cfg);
    var looked := StoreGet(s, get, lookupFault);
    if looked.result.Success? then looked
    else StoreInsert(looked.store, create, createFault)
  }

  /** Each call issues exactly one lookup, and a create exactly when the
      lookup did not find the table. */
  lemma ProvisioningRequestCounts(s: Store, cfg: TableConfig, lookupFault: Option<RemoteError>, createFault: Option<RemoteError>)
    ensures var r := GetOrCreateTable(s, cfg, lookupFault, createFault);
      && LookupCount(r.store.log) == LookupCount(s.log) + 1
      && CreateCount(r.store.log) == CreateCount(s.log) + (if LookupFinds(s, cfg, lookupFault) then 0 else 1)
  {
    var get := Lookup(GetTableRequest(cfg));
    CountAppend(s.log, get);
    if !LookupFinds(s, cfg, lookupFault) {
      var create := Create(CreateTableRequest(cfg));
      CountAppend(s.log + [get], create);
      assert s.log + [get, create] == (s.log + [get]) + [create];
    }
  }

  /** A lookup that finds the table ends the call: nothing is created, the
      store is left as it was but for the logged lookup, and the result is
      the stored table, whose fields are not compared with the configured ones. */
  lemma LookupHitIssuesNoCreate(s: Store, cfg: TableConfig, createFault: Option<RemoteError>)
    requires TargetOf(cfg) in s.tables
    ensures var r := GetOrCreateTable(s, cfg, None, createFault);
      && r.store == s.(log := s.log + [Lookup(GetTableRequest(cfg))])
      && r.result == Success(TableResource(TableKind, TargetOf(cfg), TableSchema(s.tables[TargetOf(cfg)])))
  {
  }

  /** A lookup that fails, whatever the reason, is followed by exactly one
      create request for the configured table and fields, and the create's
      settlement is the result: its failure passed on unchanged, a duplicate
      error when the table was there all along, otherwise the new table. */
  lemma LookupFailureCreatesOnce(s: Store, cfg: TableConfig, lookupFault: Option<RemoteError>, createFault: Option<RemoteError>)
    requires !LookupFinds(s, cfg, lookupFault)
    ensures var r := GetOrCreateTable(s, cfg, lookupFault, createFault);
      && r.store.log == s.log + [Lookup(GetTableRequest(cfg)), Create(CreateTableRequest(cfg))]
      && (createFault.Some? ==> r.result == Failure(createFault.value) && r.store.tables == s.tables)
      && (createFault.None? && TargetOf(cfg) in s.tables ==> r.result == Failure(Duplicate) && r.store.tables == s.tables)
      && (createFault.None? && TargetOf(cfg) !in s.tables ==>
            r.result.Success? && r.store.tables == s.tables[TargetOf(cfg) := cfg.table.fields])
  {
  }

  /** Provisioning twice: once the first call has succeeded, a second call
      whose lookup meets no failure succeeds through the lookup and creates
      nothing, so the two calls together issue at most one create. */
  lemma ProvisioningIdempotent(s: Store, cfg: TableConfig, lookupFault: Option<RemoteError>,
                               createFault: Option<RemoteError>, secondCreateFault: Option<RemoteError>)
    requires GetOrCreateTable(s, cfg, lookupFault, createFault).result.Success?
    ensures var first := GetOrCreateTable(s, cfg, lookupFault, createFault);
      var second := GetOrCreateTable(first.store, cfg, None, secondCreateFault);
      && second.result.Success?
      && CreateCount(second.store.log) == CreateCount(first.store.log)
      && CreateCount(second.store.log) <= CreateCount(s.log) + 1
      && second.store.tables == first.store.tables
  {
    var first := GetOrCreateTable(s, cfg, lookupFault, createFault);
    assert LookupFinds(first.store, cfg, None);
    ProvisioningRequestCounts(s, cfg, lookupFault, createFault);
    ProvisioningRequestCounts(first.store, cfg, None, secondCreateFault);
  }

  /** Two fault-free calls against a store without the table: the first
      creates it with the configured fields, the second finds it, and one
      create request is issued in all. */
  lemma FirstRunCreatesExactlyOnce(s: Store, cfg: TableConfig)
    requires TargetOf(cfg) !in s.tables
    ensures var first := GetOrCreateTable(s, cfg, None, None);
      var second := GetOrCreateTable(first.store, cfg, None, None);
      && first.result.Success? && second.result.Success?
      && second.result.value.schema.fields == cfg.table.fields
      && CreateCount(second.store.log) == CreateCount(s.log) + 1
  {
    var first := GetOrCreateTable(s, cfg, None, None);
    ProvisioningRequestCounts(s, cfg, None, None);
    ProvisioningRequestCounts(first.store, cfg, None, None);
  }

  /** The table id `run` reports into. */
  const RunTableId: string := "test"

  /** `run`: derives the configuration for the table "test", authenticates,
      and provisions the table. Authentication is a parameter: when it fails
      its error is the result and no request reaches the store. */
  function Run(c: BenchmarkConfig, auth: Outcome<RemoteError>, s: Store,
               lookupFault: Option<RemoteError>, createFault: Option<RemoteError>): (r: Reply)
    ensures auth.Fail? ==> r.result == Failure(auth.error) && r.store == s
    ensures auth.Pass? ==> s.log < r.store.log
    ensures auth.Pass? && r.result.Success? ==>
      TableReference(c.cloudReporter.projectId, c.cloudReporter.datasetId, RunTableId) in r.store.tables
    ensures auth.Pass? && TableReference(c.cloudReporter.projectId, c.cloudReporter.datasetId, RunTableId) !in s.tables
            && createFault.None? ==>
      r.result.Success? &&
      r.store.tables[TableReference(c.cloudReporter.projectId, c.cloudReporter.datasetId, RunTableId)]
        == CreateTableConfig(c, RunTableId).table.fields
  {
    match auth
    case Fail(e) => Reply(Failure(e), s)
    case Pass => GetOrCreateTable(s, CreateTableConfig(c, RunTableId), lookupFault, createFault)
  }
}
