/** Values shared by the two repositories and the handlers. */
module Base {

  /** One byte of a Go string; Go's `len` on a string counts these. */
  newtype byte = b: int | 0 <= b < 256

  /** A Go string, as the bytes it holds. */
  type Text = seq<byte>

  datatype Option<T> = None | Some(value: T)

  /** A Go slice: `nil` is a value of its own, distinct from an empty non-nil slice. */
  datatype Slice<T> = Nil | Slice(elems: seq<T>) {

    /** What `range` iterates over; a nil slice has no elements. */
    function Elems(): seq<T> {
      match this
      case Nil => []
      case Slice(s) => s
    }

    /** Go's `len`, which is 0 on nil. */
    function Len(): nat {
      |Elems()|
    }
  }

  /** A failure the database driver reports that is not about the query's outcome:
      the per-call deadline passing, a lost connection, a rejected statement. */
  datatype StoreFault = Timeout | Failure

  /** The errors the repositories return. */
  datatype Error =
    | RecordNotFound
    | EditConflict
    | Store(fault: StoreFault)

  datatype Result<T> = Ok(value: T) | Err(error: Error)
}

/** A stand-in for the validator the record checks are written against: each
    check that fails records one violation, and the record is valid when none did. */
module Validator {

  datatype Violation = Violation(field: string, message: string)

  /** `v.Check(ok, field, message)`. */
  function Check(failures: seq<Violation>, ok: bool, field: string, message: string): seq<Violation> {
    if ok then failures else failures + [Violation(field, message)]
  }

  /** Some violation is filed under `field`. */
  predicate Reports(failures: seq<Violation>, field: string) {
    exists k :: 0 <= k < |failures| && failures[k].field == field
  }

  /** Every violation is filed under one of `fields`. */
  predicate FiledUnder(failures: seq<Violation>, fields: set<string>) {
    forall k :: 0 <= k < |failures| ==> failures[k].field in fields
  }

  /** `validator.Unique`: no value occurs twice. */
  predicate Unique<T(==)>(s: seq<T>) {
    forall i, j :: 0 <= i < j < |s| ==> s[i] != s[j]
  }
}
