/**
 * The parts of a decoded journal block that the export processor and its visitors read. A block is
 * an Ion struct; only the fields used below are kept, and a field that may be absent is an Option.
 */
module Journal {
  import opened Wrappers

  /** One entry of `transactionInfo.documents`: the table a document belongs to. */
  datatype TableInfo = TableInfo(tableId: string, tableName: string)

  /** A revision's `metadata` struct. */
  datatype Metadata = Metadata(id: string, version: int)

  /** One element of a block's `revisions` list. */
  datatype Revision = Revision(
    hasBlockAddress: bool,       // the revision carries its own `blockAddress` field
    metadata: Option<Metadata>,  // absent for placeholder entries
    hasData: bool,               // a `data` field is present
    hasDataHash: bool)           // a `dataHash` field is present

  /** The `blockTimestamp` field: an Ion timestamp (milliseconds since the epoch), a string
      (JSON exports), a value of some other Ion type, or no field at all. */
  datatype TimestampValue = IonTimestamp(millis: int) | IonString(text: string) | OtherIonType | Missing

  /** `transactionInfo`; its `documents` struct maps document ids to their tables. */
  datatype TransactionInfo = TransactionInfo(documents: Option<map<string, TableInfo>>)

  /** A journal block; `sequenceNo` is `blockAddress.sequenceNo`. */
  datatype Block = Block(
    sequenceNo: int,
    blockTimestamp: TimestampValue,
    transactionInfo: Option<TransactionInfo>,
    revisions: Option<seq<Revision>>)
}
