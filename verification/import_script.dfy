/**
 * The body of `run` in the import script (lib/import/index.js, lines 69-116):
 * derive the id field names from the collection path, make sure the
 * destination table exists, fetch every document of the collection, map each
 * document to one row, insert the rows in one batch, and report how many
 * rows were built.
 *
 * The helpers the script imports from its sibling modules (`../util`,
 * `../bigquery`, `../firestore`) are not part of this model; they appear as
 * function-valued fields of `Helpers`, about which nothing is assumed. The
 * network services appear the same way, in `Services`.
 */
module ImportScript {
  import opened Base
  import opened Snapshots
  import opened Validation

  /** The change type every row of a bulk import carries. */
  const ChangeTypeInsert: string := "INSERT"

  /** What `extractIdFieldValues` hands back: the document id and the values
      of the wildcard id fields of the collection path. */
  datatype IdExtraction<Ids> = IdExtraction(id: string, idFieldValues: Ids)

  /** The arguments `buildDataRow` is called with, in order. */
  datatype RowInput<Ids, Data> =
    RowInput(idFieldValues: Ids, documentId: string, changeType: string, timestamp: Timestamp, data: Data)

  /** The imported helpers, left uninterpreted. The schema's field list is
      bound into `extractSnapshotData` and its `timestampField` into
      `extractTimestamp`: both are read once from the schema file and are the
      same for every document. */
  datatype Helpers<!Doc, !Names, !Data, !Ids, Row> = Helpers(
    extractIdFieldNames: string -> Names,
    extractSnapshotData: Snapshot<Doc> -> Data,
    extractIdFieldValues: (Snapshot<Doc>, Names) -> IdExtraction<Ids>,
    extractTimestamp: (Data, Timestamp) -> Timestamp,
    buildDataRow: RowInput<Ids, Data> -> Row)

  /** The external services: table provisioning (dataset, table, id field
      names), the collection read, and the batch insert (dataset, table, rows).
      A `Failure` stands for a rejected promise and carries its message. */
  datatype Services<!Doc, !Names, !Row> = Services(
    initialiseSchema: (string, string, Names) -> Result<()>,
    fetchCollection: string -> Result<seq<Snapshot<Doc>>>,
    insertData: (string, string, seq<Row>) -> Result<()>)

  /** The arguments the `map` callback passes to `buildDataRow` for one
      document: that document's id, id field values and data, the change type
      "INSERT", and the timestamp `extractTimestamp` picks given, as default,
      the first present of the update time, the creation time and the
      import time. */
  function RowInputFor<Doc, Names, Data, Ids, Row>(
    s: Snapshot<Doc>, names: Names, importTimestamp: Timestamp, h: Helpers<Doc, Names, Data, Ids, Row>
  ): (r: RowInput<Ids, Data>)
    ensures r.changeType == ChangeTypeInsert
    ensures r.documentId == h.extractIdFieldValues(s, names).id
    ensures r.idFieldValues == h.extractIdFieldValues(s, names).idFieldValues
    ensures r.data == h.extractSnapshotData(s)
    ensures FirstPresent([s.updateTime, s.createTime, Some(importTimestamp)]).Some?
    ensures r.timestamp
            == h.extractTimestamp(r.data, FirstPresent([s.updateTime, s.createTime, Some(importTimestamp)]).value)
  {
    DefaultTimestampPriority(s, importTimestamp);
    var data := h.extractSnapshotData(s);
    var ids := h.extractIdFieldValues(s, names);
    RowInput(ids.idFieldValues, ids.id, ChangeTypeInsert,
             h.extractTimestamp(data, DefaultTimestamp(s, importTimestamp)), data)
  }

  /** `collectionSnapshot.docs.map(...)`: one row per document, in document
      order, every row built with the same import timestamp. */
  function BuildRows<Doc, Names, Data, Ids, Row>(
    docs: seq<Snapshot<Doc>>, names: Names, importTimestamp: Timestamp, h: Helpers<Doc, Names, Data, Ids, Row>
  ): (rows: seq<Row>)
    ensures |rows| == |docs|
    ensures forall i :: 0 <= i < |docs| ==> rows[i] == h.buildDataRow(RowInputFor(docs[i], names, importTimestamp, h))
  {
    if |docs| == 0 then []
    else [h.buildDataRow(RowInputFor(docs[0], names, importTimestamp, h))] + BuildRows(docs[1..], names, importTimestamp, h)
  }

  /** Rows do not depend on one another: mapping two batches of documents
      and concatenating equals mapping their concatenation. */
  lemma BuildRowsAppend<Doc, Names, Data, Ids, Row>(
    a: seq<Snapshot<Doc>>, b: seq<Snapshot<Doc>>, names: Names, importTimestamp: Timestamp,
    h: Helpers<Doc, Names, Data, Ids, Row>
  )
    ensures BuildRows(a + b, names, importTimestamp, h)
            == BuildRows(a, names, importTimestamp, h) + BuildRows(b, names, importTimestamp, h)
  {
  }

  /** When every document carries a metadata time, the import time leaves
      no trace in the rows: re-running the import later rebuilds the same rows. */
  lemma RowsIndependentOfImportTime<Doc, Names, Data, Ids, Row>(
    docs: seq<Snapshot<Doc>>, names: Names, t1: Timestamp, t2: Timestamp, h: Helpers<Doc, Names, Data, Ids, Row>
  )
    requires forall i :: 0 <= i < |docs| ==> docs[i].HasMetadataTime()
    ensures BuildRows(docs, names, t1, h) == BuildRows(docs, names, t2, h)
  {
  }

  /** A call `run` makes to an external service, with its arguments. */
  datatype ServiceCall<Names, Row> =
    | Provision(datasetId: string, tableName: string, idFieldNames: Names)
    | Fetch(collectionPath: string)
    | Insert(datasetId: string, tableName: string, rows: seq<Row>)

  /** `run()`: resolves with the number of rows imported, or rejects with the
      message of the first service that failed; nothing runs after a failure.
      `importTimestamp` is the clock reading taken once before the documents
      are fetched. Besides the outcome, `Run` returns the rows it built and
      the service calls it made, in order. */
  method Run<Doc, Names, Data, Ids, Row>(
    answers: Answers, importTimestamp: Timestamp,
    h: Helpers<Doc, Names, Data, Ids, Row>, svc: Services<Doc, Names, Row>
  ) returns (result: Result<nat>, rows: seq<Row>, calls: seq<ServiceCall<Names, Row>>)
    ensures var names := h.extractIdFieldNames(answers.collectionPath);
      var provision := Provision(answers.datasetId, answers.tableName, names);
      var fetch := Fetch(answers.collectionPath);
      var provisioned := svc.initialiseSchema(answers.datasetId, answers.tableName, names);
      var fetched := svc.fetchCollection(answers.collectionPath);
      && (provisioned.Failure? ==>
            result == Failure(provisioned.message) && rows == [] && calls == [provision])
      && (provisioned.Success? && fetched.Failure? ==>
            result == Failure(fetched.message) && rows == [] && calls == [provision, fetch])
      && (provisioned.Success? && fetched.Success? ==>
            && |rows| == |fetched.value|
            && (forall i :: 0 <= i < |rows| ==>
                  rows[i] == h.buildDataRow(RowInputFor(fetched.value[i], names, importTimestamp, h)))
            && calls == [provision, fetch, Insert(answers.datasetId, answers.tableName, rows)]
            && var inserted := svc.insertData(answers.datasetId, answers.tableName, rows);
               (if inserted.Success? then result == Success(|fetched.value|)
                else result == Failure(inserted.message)))
  {
    rows := [];
    var names := h.extractIdFieldNames(answers.collectionPath);
    var provisioned := svc.initialiseSchema(answers.datasetId, answers.tableName, names);
    calls := [Provision(answers.datasetId, answers.tableName, names)];
    if provisioned.Failure? {
      return Failure(provisioned.message), rows, calls;
    }
    var fetched := svc.fetchCollection(answers.collectionPath);
    calls := calls + [Fetch(answers.collectionPath)];
    if fetched.Failure? {
      return Failure(fetched.message), rows, calls;
    }
    var docs := fetched.value;
    var i := 0;
    while i < |docs|
      invariant 0 <= i <= |docs|
      invariant |rows| == i
      invariant forall j :: 0 <= j < i ==> rows[j] == h.buildDataRow(RowInputFor(docs[j], names, importTimestamp, h))
    {
      rows := rows + [h.buildDataRow(RowInputFor(docs[i], names, importTimestamp, h))];
      i := i + 1;
    }
    var inserted := svc.insertData(answers.datasetId, answers.tableName, rows);
    calls := calls + [Insert(answers.datasetId, answers.tableName, rows)];
    if inserted.Failure? {
      return Failure(inserted.message), rows, calls;
    }
    result := Success(|rows|);
  }
}
