/**
 * The values the tracker stores: JSON-like nested dictionaries. A Python dict
 * is a map from string keys to values; every other Python value is a scalar
 * leaf (None, a number, a string).
 */
module Values {

  datatype Option<T> = None | Some(value: T)

  datatype Value =
    | Null
    | Num(n: int)
    | Str(s: string)
    | Obj(m: map<string, Value>)

  /** A dictionary, nested or flat. */
  type Dict = map<string, Value>

  /** Python truthiness of a value: an empty dict, "", 0 and None are false. */
  predicate Truthy(v: Value)
  {
    match v
    case Null => false
    case Num(n) => n != 0
    case Str(s) => s != ""
    case Obj(m) => m != map[]
  }

  /** `d.get(k, None)`. */
  function Get(d: Dict, k: string): Value
  {
    if k in d then d[k] else Null
  }

  // ---------------------------------------------------------------------------
  // Field names of an audit entry and of a delta (tracker.py:7-18)
  // ---------------------------------------------------------------------------

  const CreatedField: string := "@inserted"
  const UpdatedField: string := "@updated"
  const DeletedField: string := "@deleted"
  const SnapField: string := "snap"
  const FromKey: string := "-from"
  const ToKey: string := "+to"
  const InsertedKey: string := "+inserted_data"
  const DeletedKey: string := "-data_was"
  const PkField: string := "id"
  const UpdatedOnField: string := "updated_on"
  const TimestampField: string := "timestamp"

  /** The clock reading `__generate_delta_obj` takes at tracker.py:117-120. */
  datatype Clock = Clock(now: string, stamp: int)
}
