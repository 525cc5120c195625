/** The stream-status repository's filtered listing: a conjunction of column
    equalities, always on the workspace and on every other parameter that is
    given, applied to the stored statuses; pagination is passed through. */
module StreamStatusesRepository {
  import opened Wrappers

  datatype JobType = Sync | Reset

  datatype Pagination = Pagination(offset: int, size: int)

  /** The filter parameters; every one but the workspace may be null. */
  datatype FilterParams = FilterParams(
    workspaceId: string,
    connectionId: Option<string>,
    jobId: Option<int>,
    streamNamespace: Option<string>,
    streamName: Option<string>,
    attemptNumber: Option<int>,
    jobType: Option<JobType>,
    pagination: Option<Pagination>)

  /** A stored stream status; the namespace column is nullable. */
  datatype StreamStatus = StreamStatus(
    id: string,
    workspaceId: string,
    connectionId: string,
    jobId: int,
    streamNamespace: Option<string>,
    streamName: string,
    attemptNumber: int,
    jobType: JobType)

  datatype Column = WorkspaceIdColumn | ConnectionIdColumn | JobIdColumn | StreamNamespaceColumn
                  | StreamNameColumn | AttemptNumberColumn | JobTypeColumn

  datatype ColumnValue = UuidValue(uuid: string) | LongValue(n: int) | TextValue(text: string)
                       | JobTypeValue(jobType: JobType) | NullValue

  /** `criteriaBuilder.equal(root.get(column), value)`. */
  datatype ColumnEquals = ColumnEquals(column: Column, value: ColumnValue)

  /** `Pageable.unpaged()` or `Pageable.from(page, size)`; the repository passes
      its pagination's `offset` field as the page argument. */
  datatype Pageable = Unpaged | PageFrom(pageIndex: int, size: int)

  datatype Query = Query(spec: seq<ColumnEquals>, pageable: Pageable)

  function ColumnOf(s: StreamStatus, c: Column): ColumnValue {
    match c
    case WorkspaceIdColumn => UuidValue(s.workspaceId)
    case ConnectionIdColumn => UuidValue(s.connectionId)
    case JobIdColumn => LongValue(s.jobId)
    case StreamNamespaceColumn => if s.streamNamespace.Some? then TextValue(s.streamNamespace.value) else NullValue
    case StreamNameColumn => TextValue(s.streamName)
    case AttemptNumberColumn => LongValue(s.attemptNumber)
    case JobTypeColumn => JobTypeValue(s.jobType)
  }

  /** The value a parameter asks its column to equal, `None` when it is null. */
  function ParamFor(p: FilterParams, c: Column): Option<ColumnValue> {
    match c
    case WorkspaceIdColumn => Some(UuidValue(p.workspaceId))
    case ConnectionIdColumn => if p.connectionId.Some? then Some(UuidValue(p.connectionId.value)) else None
    case JobIdColumn => if p.jobId.Some? then Some(LongValue(p.jobId.value)) else None
    case StreamNamespaceColumn => if p.streamNamespace.Some? then Some(TextValue(p.streamNamespace.value)) else None
    case StreamNameColumn => if p.streamName.Some? then Some(TextValue(p.streamName.value)) else None
    case AttemptNumberColumn => if p.attemptNumber.Some? then Some(LongValue(p.attemptNumber.value)) else None
    case JobTypeColumn => if p.jobType.Some? then Some(JobTypeValue(p.jobType.value)) else None
  }

  /** Some constraint of the specification is on column `c`. */
  predicate Constrains(spec: seq<ColumnEquals>, c: Column) {
    exists i :: 0 <= i < |spec| && spec[i].column == c
  }

  /** The optional columns, in the order `findAllFiltered` tests their parameters. */
  const OptionalColumns: seq<Column> :=
    [ConnectionIdColumn, JobIdColumn, StreamNamespaceColumn, StreamNameColumn, AttemptNumberColumn, JobTypeColumn]

  /** The equalities the given parameters among `columns` add, one `spec.and(...)` per
      non-null parameter, in column order. */
  function GivenConstraints(p: FilterParams, columns: seq<Column>): seq<ColumnEquals> {
    if |columns| == 0 then []
    else
      var rest := GivenConstraints(p, columns[1..]);
      match ParamFor(p, columns[0])
      case None => rest
      case Some(v) => [ColumnEquals(columns[0], v)] + rest
  }

  /** Every added equality is on one of the columns and asks for its parameter's value. */
  lemma {:induction false} GivenConstraintsSound(p: FilterParams, columns: seq<Column>)
    ensures forall e :: e in GivenConstraints(p, columns) ==> e.column in columns && ParamFor(p, e.column) == Some(e.value)
  {
    if |columns| > 0 {
      var rest := GivenConstraints(p, columns[1..]);
      var r := GivenConstraints(p, columns);
      GivenConstraintsSound(p, columns[1..]);
      assert forall c :: c in columns[1..] ==> c in columns;
      if ParamFor(p, columns[0]).Some? {
        assert r == [ColumnEquals(columns[0], ParamFor(p, columns[0]).value)] + rest;
        assert columns[0] in columns;
      } else {
        assert r == rest;
      }
    }
  }

  /** A column is constrained exactly when it is listed and its parameter is given. */
  lemma {:induction false} GivenConstraintsComplete(p: FilterParams, columns: seq<Column>, c: Column)
    ensures Constrains(GivenConstraints(p, columns), c) <==> c in columns && ParamFor(p, c).Some?
  {
    if |columns| > 0 {
      var rest := GivenConstraints(p, columns[1..]);
      var r := GivenConstraints(p, columns);
      GivenConstraintsComplete(p, columns[1..], c);
      assert c in columns <==> c == columns[0] || c in columns[1..];
      if ParamFor(p, columns[0]).Some? {
        assert r == [ColumnEquals(columns[0], ParamFor(p, columns[0]).value)] + rest;
        assert r[0].column == columns[0];
        if Constrains(rest, c) {
          var i :| 0 <= i < |rest| && rest[i].column == c;
          assert r[i + 1].column == c;
        }
        if Constrains(r, c) && c != columns[0] {
          var i :| 0 <= i < |r| && r[i].column == c;
          assert rest[i - 1].column == c;
        }
      }
    }
  }

  /** Distinct columns give at most one equality each. */
  lemma {:induction false} GivenConstraintsDistinct(p: FilterParams, columns: seq<Column>)
    requires forall i, j :: 0 <= i < j < |columns| ==> columns[i] != columns[j]
    ensures forall i, j :: 0 <= i < j < |GivenConstraints(p, columns)| ==>
              GivenConstraints(p, columns)[i].column != GivenConstraints(p, columns)[j].column
  {
    if |columns| > 0 {
      var rest := GivenConstraints(p, columns[1..]);
      var r := GivenConstraints(p, columns);
      GivenConstraintsDistinct(p, columns[1..]);
      GivenConstraintsSound(p, columns[1..]);
      assert columns[0] !in columns[1..];
      forall i | 0 <= i < |rest| ensures rest[i].column != columns[0] {
        assert rest[i] in rest;
      }
      if ParamFor(p, columns[0]).Some? {
        assert r == [ColumnEquals(columns[0], ParamFor(p, columns[0]).value)] + rest;
        assert forall i :: 1 <= i < |r| ==> r[i] == rest[i - 1] && r[i].column != r[0].column;
      } else {
        assert r == rest;
      }
    }
  }

  /** The query `findAllFiltered` hands to the specification executor. */
  function BuildQuery(p: FilterParams): (q: Query)
    ensures q.pageable == (if p.pagination.Some? then PageFrom(p.pagination.value.offset, p.pagination.value.size) else Unpaged)
  {
    var spec := [ColumnEquals(WorkspaceIdColumn, UuidValue(p.workspaceId))] + GivenConstraints(p, OptionalColumns);
    var pageable := if p.pagination.Some? then PageFrom(p.pagination.value.offset, p.pagination.value.size) else Unpaged;
    Query(spec, pageable)
  }

  /** The workspace equality always leads; every constraint comes from a given
      parameter, at most one per column; and every given parameter adds one. */
  lemma BuildQuerySpec(p: FilterParams)
    ensures var spec := BuildQuery(p).spec;
            && |spec| >= 1 && spec[0] == ColumnEquals(WorkspaceIdColumn, UuidValue(p.workspaceId))
            && (forall i :: 0 <= i < |spec| ==> ParamFor(p, spec[i].column) == Some(spec[i].value))
            && (forall i, j :: 0 <= i < j < |spec| ==> spec[i].column != spec[j].column)
            && (forall c :: ParamFor(p, c).Some? ==> Constrains(spec, c))
  {
    var given := GivenConstraints(p, OptionalColumns);
    var spec := BuildQuery(p).spec;
    assert spec == [ColumnEquals(WorkspaceIdColumn, UuidValue(p.workspaceId))] + given;
    assert forall i :: 1 <= i < |spec| ==> spec[i] == given[i - 1] && spec[i] in given;
    assert ParamFor(p, spec[0].column) == Some(spec[0].value);
    GivenConstraintsSound(p, OptionalColumns);
    GivenConstraintsDistinct(p, OptionalColumns);
    assert WorkspaceIdColumn !in OptionalColumns;
    forall c | ParamFor(p, c).Some? ensures Constrains(spec, c) {
      if c == WorkspaceIdColumn {
        assert spec[0].column == c;
      } else {
        assert c in OptionalColumns;
        GivenConstraintsComplete(p, OptionalColumns, c);
        var i :| 0 <= i < |given| && given[i].column == c;
        assert spec[i + 1].column == c;
      }
    }
  }

  /** The record satisfies every constraint of the specification. */
  predicate Satisfies(s: StreamStatus, spec: seq<ColumnEquals>) {
    forall i :: 0 <= i < |spec| ==> ColumnOf(s, spec[i].column) == spec[i].value
  }

  /** Reference reading of the filter, parameter by parameter: a null parameter
      imposes nothing. */
  predicate MatchesParams(s: StreamStatus, p: FilterParams) {
    && s.workspaceId == p.workspaceId
    && (p.connectionId.Some? ==> s.connectionId == p.connectionId.value)
    && (p.jobId.Some? ==> s.jobId == p.jobId.value)
    && (p.streamNamespace.Some? ==> s.streamNamespace == p.streamNamespace)
    && (p.streamName.Some? ==> s.streamName == p.streamName.value)
    && (p.attemptNumber.Some? ==> s.attemptNumber == p.attemptNumber.value)
    && (p.jobType.Some? ==> s.jobType == p.jobType.value)
  }

  /** The built conjunction means exactly the parameter-by-parameter filter. */
  lemma QueryMeansParams(s: StreamStatus, p: FilterParams)
    ensures Satisfies(s, BuildQuery(p).spec) <==> MatchesParams(s, p)
  {
    var spec := BuildQuery(p).spec;
    BuildQuerySpec(p);
    if Satisfies(s, spec) {
      forall c | ParamFor(p, c).Some?
        ensures ColumnOf(s, c) == ParamFor(p, c).value
      {
        assert Constrains(spec, c);
        var i :| 0 <= i < |spec| && spec[i].column == c;
      }
      assert ColumnOf(s, WorkspaceIdColumn) == ParamFor(p, WorkspaceIdColumn).value;
      assert p.connectionId.Some? ==> ColumnOf(s, ConnectionIdColumn) == ParamFor(p, ConnectionIdColumn).value;
      assert p.jobId.Some? ==> ColumnOf(s, JobIdColumn) == ParamFor(p, JobIdColumn).value;
      assert p.streamNamespace.Some? ==> ColumnOf(s, StreamNamespaceColumn) == ParamFor(p, StreamNamespaceColumn).value;
      assert p.streamName.Some? ==> ColumnOf(s, StreamNameColumn) == ParamFor(p, StreamNameColumn).value;
      assert p.attemptNumber.Some? ==> ColumnOf(s, AttemptNumberColumn) == ParamFor(p, AttemptNumberColumn).value;
      assert p.jobType.Some? ==> ColumnOf(s, JobTypeColumn) == ParamFor(p, JobTypeColumn).value;
    }
    if MatchesParams(s, p) {
      forall i | 0 <= i < |spec|
        ensures ColumnOf(s, spec[i].column) == spec[i].value
      {
        assert ParamFor(p, spec[i].column) == Some(spec[i].value);
      }
    }
  }

  /** The records that satisfy the specification, in stored order. */
  function Filter(records: seq<StreamStatus>, spec: seq<ColumnEquals>): (r: seq<StreamStatus>)
    ensures |r| <= |records|
    ensures forall s :: s in r <==> s in records && Satisfies(s, spec)
  {
    if |records| == 0 then []
    else if Satisfies(records[0], spec) then [records[0]] + Filter(records[1..], spec)
    else Filter(records[1..], spec)
  }

  /** One page of the result: the matching records and the page request they were fetched with. */
  datatype StatusPage = StatusPage(content: seq<StreamStatus>, pageable: Pageable)

  /** `findAllFiltered`, with the database replaced by a sequence of stored
      statuses and the page cut left to the pageable. */
  function FindAllFiltered(records: seq<StreamStatus>, p: FilterParams): (r: StatusPage)
    ensures forall s :: s in r.content <==> s in records && MatchesParams(s, p)
    ensures r.pageable == (if p.pagination.Some? then PageFrom(p.pagination.value.offset, p.pagination.value.size) else Unpaged)
  {
    var q := BuildQuery(p);
    forall s ensures Satisfies(s, q.spec) <==> MatchesParams(s, p) {
      QueryMeansParams(s, p);
    }
    StatusPage(Filter(records, q.spec), q.pageable)
  }

  /** With only the workspace given, every record of that workspace is returned. */
  lemma WorkspaceOnlyReturnsWholeWorkspace(records: seq<StreamStatus>, workspaceId: string)
    ensures var p := FilterParams(workspaceId, None, None, None, None, None, None, None);
            forall s :: s in FindAllFiltered(records, p).content <==> s in records && s.workspaceId == workspaceId
  {
  }
}
