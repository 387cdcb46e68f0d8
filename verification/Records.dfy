/** Source rows as the pipeline sees them. */
module Records {
  import opened Prelude

  type Key = string
  type Val = string

  /** One source row: the bookkeeping columns `_op` and `_op_index` (a null `_op`
      reads as the empty string), the key columns and all remaining columns. */
  datatype Row = Row(op: string, opIndex: int, key: Key, val: Val)

  /** A record batch is the sequence of its rows. */
  type RecordBatch = seq<Row>

  function NumRows(batches: seq<RecordBatch>): nat {
    |Flat(batches)|
  }
}
