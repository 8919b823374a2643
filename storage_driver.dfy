/**
 * The storage-backend interface every engine implements: a key/value
 * record and the options of a scan.
 */
module StorageDriver {
  import opened Wrappers
  import opened ByteOrder

  /** One record: a key and its value. */
  datatype KeyValue = KeyValue(key: Bytes, value: Bytes)

  /**
   * The five options a scan reads. A Go nil slice or nil callback is `None`;
   * an empty but non-nil prefix or offset is `Some([])`. The filter is a pure
   * yes/no predicate: `true` asks for the next record.
   */
  datatype ScanOpts = ScanOpts(
    filter: Option<(Bytes, Bytes) -> bool>,
    prefix: Option<Bytes>,
    offset: Option<Bytes>,
    includeOffset: bool,
    reverseScan: bool)
}
