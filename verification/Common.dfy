/** Value carriers shared by the models. */
module Common {
  datatype Option<+T> = None | Some(value: T)

  /** Unsigned machine integers are unbounded here; arithmetic that can wrap says so with these limits. */
  const UINT32_LIMIT: nat := 0x1_0000_0000
  const UINT64_LIMIT: nat := 0x1_0000_0000_0000_0000
  const INT64_LIMIT: nat := 0x8000_0000_0000_0000

  /** How the environment treats one durable write: it happens, or fails before or after taking effect. */
  datatype Write = Done | Lost | Unconfirmed

  /** How writing a record ended: confirmed, in effect without being confirmed, or not, with its temporary left or not. */
  datatype Filing = Filed | Doubtful | Dropped(stranded: bool)

  type Byte = b: int | 0 <= b < 256

  predicate NoRepeats<T(==)>(s: seq<T>) {
    forall i, j :: 0 <= i < j < |s| ==> s[i] != s[j]
  }
}
