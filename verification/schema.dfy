/** Schema derivation: the benchmark configuration and a table id become the
    destination table's configuration, whose field list is the five fixed
    header columns, then one FLOAT column per parameter, then one FLOAT
    column per metric (cloudtest.js, `HEADER_FIELDS` and `createTableConfig`). */
module Schema {
  import opened Results
  import opened Json
  import Text
  import opened Seqs

  /** The column types the store understands. */
  datatype FieldType = STRING | INTEGER | FLOAT | BOOLEAN | TIMESTAMP

  /** One column of the table schema; `description` is optional. */
  datatype Field = Field(name: string, kind: FieldType, description: Option<string>)

  /** The fixed columns every benchmark table starts with, in this order. */
  const HeaderFields: seq<Field> := [
    Field("runId", STRING, Some("uuid for the benchmark run")),
    Field("index", INTEGER, Some("index within the sample")),
    Field("creationTime", TIMESTAMP, None),
    Field("browser", STRING, Some("navigator.platform")),
    Field("forceGc", BOOLEAN, Some("whether gc was forced at end of action"))
  ]

  const ParamPrefix: string := "p_"
  const MetricPrefix: string := "m_"

  /** A benchmark parameter; only its name reaches the schema. */
  datatype Param = Param(name: string, value: Scalar)

  /** Where results are reported. The credentials are not part of this model. */
  datatype CloudReporter = CloudReporter(projectId: string, datasetId: string)

  datatype BenchmarkConfig = BenchmarkConfig(cloudReporter: CloudReporter, params: seq<Param>, metrics: seq<string>)

  datatype TableSpec = TableSpec(id: string, fields: seq<Field>)

  /** The unit handed to provisioning and to row insertion. */
  datatype TableConfig = TableConfig(projectId: string, datasetId: string, table: TableSpec)

  /** No element occurs twice. */
  predicate Distinct<T(==)>(s: seq<T>)
  {
    forall i, j :: 0 <= i < j < |s| ==> s[i] != s[j]
  }

  function Names(fields: seq<Field>): seq<string>
  {
    MapSeq(fields, (f: Field) => f.name)
  }

  function ParamNames(params: seq<Param>): seq<string>
  {
    MapSeq(params, (p: Param) => p.name)
  }

  /** The column derived from a parameter or metric name. */
  function DerivedColumn(prefix: string, name: string): Field
  {
    Field(prefix + name, FLOAT, None)
  }

  function ParamColumns(params: seq<Param>): seq<Field>
  {
    seq(|params|, i requires 0 <= i < |params| => DerivedColumn(ParamPrefix, params[i].name))
  }

  function MetricColumns(metrics: seq<string>): seq<Field>
  {
    seq(|metrics|, i requires 0 <= i < |metrics| => DerivedColumn(MetricPrefix, metrics[i]))
  }

  /** The columns derived from the declared parameters and metrics, parameters first. */
  function DerivedColumns(params: seq<Param>, metrics: seq<string>): seq<Field>
  {
    ParamColumns(params) + MetricColumns(metrics)
  }

  /** The table configuration for `c` under the table id `tableId`. */
  function CreateTableConfig(c: BenchmarkConfig, tableId: string): (t: TableConfig)
    ensures t.projectId == c.cloudReporter.projectId
    ensures t.datasetId == c.cloudReporter.datasetId
    ensures t.table.id == tableId
    ensures |t.table.fields| == |HeaderFields| + |c.params| + |c.metrics|
    ensures t.table.fields[..|HeaderFields|] == HeaderFields
  {
    TableConfig(c.cloudReporter.projectId, c.cloudReporter.datasetId,
                TableSpec(tableId, HeaderFields + DerivedColumns(c.params, c.metrics)))
  }

  /** After the header come one FLOAT column per parameter named with the
      parameter prefix, then one FLOAT column per metric named with the metric
      prefix, each group in declaration order. */
  lemma DerivedColumnLayout(c: BenchmarkConfig, tableId: string)
    ensures var fs := CreateTableConfig(c, tableId).table.fields;
      forall i :: 0 <= i < |c.params| ==> fs[|HeaderFields| + i] == Field(ParamPrefix + c.params[i].name, FLOAT, None)
    ensures var fs := CreateTableConfig(c, tableId).table.fields;
      forall j :: 0 <= j < |c.metrics| ==> fs[|HeaderFields| + |c.params| + j] == Field(MetricPrefix + c.metrics[j], FLOAT, None)
  {
    var fs := CreateTableConfig(c, tableId).table.fields;
    var pc, mc := ParamColumns(c.params), MetricColumns(c.metrics);
    var H, P := |HeaderFields|, |c.params|;
    assert fs == HeaderFields + (pc + mc);
    forall i | 0 <= i < P ensures fs[H + i] == Field(ParamPrefix + c.params[i].name, FLOAT, None)
    {
      assert fs[H + i] == pc[i];
    }
    forall j | 0 <= j < |c.metrics| ensures fs[H + P + j] == Field(MetricPrefix + c.metrics[j], FLOAT, None)
    {
      assert fs[H + P + j] == mc[j];
    }
  }

  /** The header columns, in order: runId (STRING), index (INTEGER),
      creationTime (TIMESTAMP), browser (STRING), forceGc (BOOLEAN); only
      creationTime has no description. */
  lemma HeaderColumnsInOrder()
    ensures Names(HeaderFields) == ["runId", "index", "creationTime", "browser", "forceGc"]
    ensures MapSeq(HeaderFields, (f: Field) => f.kind) == [STRING, INTEGER, TIMESTAMP, STRING, BOOLEAN]
    ensures forall h :: 0 <= h < |HeaderFields| ==>
      (HeaderFields[h].description.None? <==> HeaderFields[h].name == "creationTime")
  {
  }

  /** Header names are pairwise distinct and none begins like a derived name. */
  lemma HeaderNamesUnprefixed()
    ensures Distinct(Names(HeaderFields))
    ensures forall h :: 0 <= h < |HeaderFields| ==>
      |HeaderFields[h].name| > 0 && HeaderFields[h].name[0] != 'p' && HeaderFields[h].name[0] != 'm'
    ensures forall h :: 0 <= h < |HeaderFields| ==>
      !Text.StartsWith(HeaderFields[h].name, ParamPrefix) && !Text.StartsWith(HeaderFields[h].name, MetricPrefix)
  {
    var names := Names(HeaderFields);
    assert names == ["runId", "index", "creationTime", "browser", "forceGc"];
  }

  /** Prefixing is injective: the prefix can be read back off a derived name. */
  lemma PrefixCancels(prefix: string, a: string, b: string)
    ensures prefix + a == prefix + b <==> a == b
  {
    assert (prefix + a)[|prefix|..] == a;
    assert (prefix + b)[|prefix|..] == b;
  }

  /** Each derived name is its declared name behind the parameter or metric prefix. */
  lemma DerivedNamePrefixed(params: seq<Param>, metrics: seq<string>, i: int)
    requires 0 <= i < |DerivedColumns(params, metrics)|
    ensures var n := DerivedColumns(params, metrics)[i].name;
      if i < |params| then n == ParamPrefix + params[i].name && Text.StartsWith(n, ParamPrefix) && n[0] == 'p'
      else n == MetricPrefix + metrics[i - |params|] && Text.StartsWith(n, MetricPrefix) && n[0] == 'm'
  {
    var n := DerivedColumns(params, metrics)[i].name;
    if i < |params| {
      assert n == ParamPrefix + params[i].name;
      assert n[..|ParamPrefix|] == ParamPrefix;
    } else {
      assert n == MetricPrefix + metrics[i - |params|];
      assert n[..|MetricPrefix|] == MetricPrefix;
    }
  }

  /** No parameter or metric column can shadow a header column. */
  lemma DerivedColumnsAvoidHeaders(c: BenchmarkConfig, tableId: string)
    ensures var fs := CreateTableConfig(c, tableId).table.fields;
      forall i, h :: |HeaderFields| <= i < |fs| && 0 <= h < |HeaderFields| ==> fs[i].name != HeaderFields[h].name
  {
    var fs := CreateTableConfig(c, tableId).table.fields;
    var ds := DerivedColumns(c.params, c.metrics);
    assert fs == HeaderFields + ds;
    HeaderNamesUnprefixed();
    forall i, h | |HeaderFields| <= i < |fs| && 0 <= h < |HeaderFields|
      ensures fs[i].name != HeaderFields[h].name
    {
      DerivedNamePrefixed(c.params, c.metrics, i - |HeaderFields|);
      assert fs[i] == ds[i - |HeaderFields|];
    }
  }

  /** Derived names at different positions differ when the declared names are distinct. */
  lemma DerivedPairDiffers(params: seq<Param>, metrics: seq<string>, i: int, j: int)
    requires Distinct(ParamNames(params)) && Distinct(metrics)
    requires 0 <= i < j < |DerivedColumns(params, metrics)|
    ensures DerivedColumns(params, metrics)[i].name != DerivedColumns(params, metrics)[j].name
  {
    var P := |params|;
    DerivedNamePrefixed(params, metrics, i);
    DerivedNamePrefixed(params, metrics, j);
    if j < P {
      assert ParamNames(params)[i] != ParamNames(params)[j];
      PrefixCancels(ParamPrefix, params[i].name, params[j].name);
    } else if P <= i {
      assert metrics[i - P] != metrics[j - P];
      PrefixCancels(MetricPrefix, metrics[i - P], metrics[j - P]);
    }
  }

  /** Any two columns at different positions have different names when the
      declared names are distinct. */
  lemma ColumnPairDiffers(c: BenchmarkConfig, tableId: string, i: int, j: int)
    requires Distinct(ParamNames(c.params)) && Distinct(c.metrics)
    requires 0 <= i < j < |CreateTableConfig(c, tableId).table.fields|
    ensures CreateTableConfig(c, tableId).table.fields[i].name != CreateTableConfig(c, tableId).table.fields[j].name
  {
    var fs := CreateTableConfig(c, tableId).table.fields;
    var ds := DerivedColumns(c.params, c.metrics);
    var H := |HeaderFields|;
    assert fs == HeaderFields + ds;
    if j < H {
      HeaderNamesUnprefixed();
      assert Names(HeaderFields)[i] != Names(HeaderFields)[j];
    } else if i < H {
      DerivedColumnsAvoidHeaders(c, tableId);
    } else {
      DerivedPairDiffers(c.params, c.metrics, i - H, j - H);
    }
  }

  /** Distinct parameter names and distinct metric names give distinct column names. */
  lemma DistinctDeclaredGivesDistinctColumns(c: BenchmarkConfig, tableId: string)
    requires Distinct(ParamNames(c.params)) && Distinct(c.metrics)
    ensures Distinct(Names(CreateTableConfig(c, tableId).table.fields))
  {
    var names := Names(CreateTableConfig(c, tableId).table.fields);
    forall i, j | 0 <= i < j < |names| ensures names[i] != names[j]
    {
      ColumnPairDiffers(c, tableId, i, j);
    }
  }

  /** The column at position `H + i` of a derived table is derived column `i`. */
  lemma ColumnName(c: BenchmarkConfig, tableId: string, i: int)
    requires 0 <= i < |DerivedColumns(c.params, c.metrics)|
    ensures Names(CreateTableConfig(c, tableId).table.fields)[|HeaderFields| + i] == DerivedColumns(c.params, c.metrics)[i].name
  {
    var fs := CreateTableConfig(c, tableId).table.fields;
    assert fs == HeaderFields + DerivedColumns(c.params, c.metrics);
  }

  /** Two declared names at different positions of the derived list differ
      when the column names are distinct. */
  lemma DeclaredPairDiffers(c: BenchmarkConfig, tableId: string, i: int, j: int)
    requires Distinct(Names(CreateTableConfig(c, tableId).table.fields))
    requires 0 <= i < j < |DerivedColumns(c.params, c.metrics)|
    ensures DerivedColumns(c.params, c.metrics)[i].name != DerivedColumns(c.params, c.metrics)[j].name
  {
    var names := Names(CreateTableConfig(c, tableId).table.fields);
    ColumnName(c, tableId, i);
    ColumnName(c, tableId, j);
    assert names[|HeaderFields| + i] != names[|HeaderFields| + j];
  }

  /** Distinct column names imply distinct parameter names and distinct metric names. */
  lemma DistinctColumnsGivesDistinctDeclared(c: BenchmarkConfig, tableId: string)
    requires Distinct(Names(CreateTableConfig(c, tableId).table.fields))
    ensures Distinct(ParamNames(c.params)) && Distinct(c.metrics)
  {
    var P := |c.params|;
    forall i, j | 0 <= i < j < P ensures ParamNames(c.params)[i] != ParamNames(c.params)[j]
    {
      DeclaredPairDiffers(c, tableId, i, j);
      DerivedNamePrefixed(c.params, c.metrics, i);
      DerivedNamePrefixed(c.params, c.metrics, j);
    }
    forall i, j | 0 <= i < j < |c.metrics| ensures c.metrics[i] != c.metrics[j]
    {
      DeclaredPairDiffers(c, tableId, P + i, P + j);
      DerivedNamePrefixed(c.params, c.metrics, P + i);
      DerivedNamePrefixed(c.params, c.metrics, P + j);
    }
  }

  /** The column names are all distinct exactly when the parameter names are
      distinct and the metric names are distinct. */
  lemma ColumnNamesDistinct(c: BenchmarkConfig, tableId: string)
    ensures Distinct(Names(CreateTableConfig(c, tableId).table.fields))
        <==> Distinct(ParamNames(c.params)) && Distinct(c.metrics)
  {
    if Distinct(ParamNames(c.params)) && Distinct(c.metrics) {
      DistinctDeclaredGivesDistinctColumns(c, tableId);
    }
    if Distinct(Names(CreateTableConfig(c, tableId).table.fields)) {
      DistinctColumnsGivesDistinctDeclared(c, tableId);
    }
  }

  /** How many fields at the front of `fields` carry the parameter prefix. */
  function LeadingParamCount(fields: seq<Field>): (k: nat)
    ensures k <= |fields|
  {
    if |fields| == 0 || !Text.StartsWith(fields[0].name, ParamPrefix) then 0
    else 1 + LeadingParamCount(fields[1..])
  }

  /** The names behind a run of derived columns with the given prefix, or None
      when some field is not such a column. */
  function StripPrefix(fields: seq<Field>, prefix: string): Option<seq<string>>
  {
    if |fields| == 0 then Some([])
    else if fields[0].kind == FLOAT && fields[0].description == None && Text.StartsWith(fields[0].name, prefix) then
      match StripPrefix(fields[1..], prefix)
      case Some(rest) => Some([fields[0].name[|prefix|..]] + rest)
      case None => None
    else None
  }

  /** Reads the parameter names and metric names back from a field list, or
      None when the list does not have the shape `CreateTableConfig` builds. */
  function RecoverNames(fields: seq<Field>): Option<(seq<string>, seq<string>)>
  {
    if |fields| < |HeaderFields| || fields[..|HeaderFields|] != HeaderFields then None
    else
      var derived := fields[|HeaderFields|..];
      var k := LeadingParamCount(derived);
      match (StripPrefix(derived[..k], ParamPrefix), StripPrefix(derived[k..], MetricPrefix))
      case (Some(ps), Some(ms)) => Some((ps, ms))
      case _ => None
  }

  /** Stripping the prefix off derived columns gives back the names they were derived from. */
  lemma {:induction false} StripDerived(prefix: string, names: seq<string>, cols: seq<Field>)
    requires |cols| == |names|
    requires forall i :: 0 <= i < |names| ==> cols[i] == DerivedColumn(prefix, names[i])
    ensures StripPrefix(cols, prefix) == Some(names)
    decreases |names|
  {
    if |names| > 0 {
      StripDerived(prefix, names[1..], cols[1..]);
      assert (prefix + names[0])[..|prefix|] == prefix;
      assert (prefix + names[0])[|prefix|..] == names[0];
      assert [names[0]] + names[1..] == names;
    }
  }

  lemma {:induction false} LeadingParamsOfDerived(params: seq<Param>, metrics: seq<string>)
    ensures LeadingParamCount(ParamColumns(params) + MetricColumns(metrics)) == |params|
    decreases |params|
  {
    var fs := ParamColumns(params) + MetricColumns(metrics);
    if |params| == 0 {
      assert fs == MetricColumns(metrics);
      if |metrics| > 0 {
        assert fs[0].name[0] == 'm';
      }
    } else {
      assert fs[0].name == ParamPrefix + params[0].name;
      assert (ParamPrefix + params[0].name)[..|ParamPrefix|] == ParamPrefix;
      assert ParamColumns(params)[1..] == ParamColumns(params[1..]);
      assert fs[1..] == ParamColumns(params[1..]) + MetricColumns(metrics);
      LeadingParamsOfDerived(params[1..], metrics);
    }
  }

  /** Reading the names back from a derived configuration gives the declared
      parameter names and metric names, in declaration order. */
  lemma RecoverNamesRoundTrip(c: BenchmarkConfig, tableId: string)
    ensures RecoverNames(CreateTableConfig(c, tableId).table.fields) == Some((ParamNames(c.params), c.metrics))
  {
    var fs := CreateTableConfig(c, tableId).table.fields;
    var pc := ParamColumns(c.params);
    var mc := MetricColumns(c.metrics);
    assert fs == HeaderFields + (pc + mc);
    var derived := fs[|HeaderFields|..];
    assert derived == pc + mc;
    LeadingParamsOfDerived(c.params, c.metrics);
    var k := LeadingParamCount(derived);
    assert k == |c.params|;
    assert derived[..k] == pc;
    assert derived[k..] == mc;
    StripDerived(ParamPrefix, ParamNames(c.params), pc);
    assert StripPrefix(derived[..k], ParamPrefix) == Some(ParamNames(c.params));
    StripDerived(MetricPrefix, c.metrics, mc);
    assert StripPrefix(derived[k..], MetricPrefix) == Some(c.metrics);
  }

  /** The field list depends on the parameter names and the metric names and
      on nothing else: not on parameter values, not on the reporter, not on
      the table id; and different names always give different field lists. */
  lemma FieldsDeterminedByNames(c1: BenchmarkConfig, t1: string, c2: BenchmarkConfig, t2: string)
    ensures CreateTableConfig(c1, t1).table.fields == CreateTableConfig(c2, t2).table.fields
        <==> ParamNames(c1.params) == ParamNames(c2.params) && c1.metrics == c2.metrics
  {
    if ParamNames(c1.params) == ParamNames(c2.params) {
      assert |c1.params| == |ParamNames(c1.params)|;
      assert ParamColumns(c1.params) == ParamColumns(c2.params) by {
        forall i | 0 <= i < |c1.params| ensures c1.params[i].name == c2.params[i].name {
          assert ParamNames(c1.params)[i] == ParamNames(c2.params)[i];
        }
      }
    }
    RecoverNamesRoundTrip(c1, t1);
    RecoverNamesRoundTrip(c2, t2);
  }
}
