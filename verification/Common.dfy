/** What several modules share: optional results, error codes and limits. */
module Common {

  datatype Option<+T> = None | Some(value: T)

  const E_OK: int := 0
  const E_INVAL_ARG: int := 2
  const E_RDB: int := 22
  const E_PATH: int := 28

  const PATH_MAX: nat := 4096

  /** Bytes of a cloud id. */
  const RECORD_ID_LEN: nat := 33

  /** The cloud id of the root directory, written out. */
  const ROOT_CLOUD_ID: string := "rootId"

  type u64 = x: int | 0 <= x < 0x1_0000_0000_0000_0000
  type i64 = x: int | -0x8000_0000_0000_0000 <= x < 0x8000_0000_0000_0000

  /** static_cast<uint64_t> */
  function AsUint64(x: i64): u64 {
    if x < 0 then x + 0x1_0000_0000_0000_0000 else x
  }

  /** static_cast<int64_t> */
  function AsInt64(x: u64): i64 {
    if x < 0x8000_0000_0000_0000 then x else x - 0x1_0000_0000_0000_0000
  }

  lemma CastsBack(x: u64)
    ensures AsUint64(AsInt64(x)) == x
  {
  }

  /** isspace */
  predicate IsSpace(c: char) {
    c == ' ' || '\t' <= c <= '\r'
  }

  lemma SubsetCount<T>(a: set<T>, b: set<T>)
    requires a <= b
    ensures |a| <= |b|
  {
    assert b == a + (b - a);
  }
}
