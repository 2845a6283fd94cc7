/** The declarations of r_json.h: buffer and stack capacities, the key tags,
    and the value, key and object records the parser builds in its arena.
    Objects and keys are identified by their index in the parser's tables;
    NULL_ID stands for a NULL pointer. */
module JsonTypes {

  datatype Option<+T> = None | Some(value: T)

  /** RJS_MAX_STRING_SIZE: capacity of tmp_token, tmp_value and error_log. */
  const MAX_STRING_SIZE: nat := 256
  /** RJS_OBJECT_STACK_SIZE: number of slots of object_stack. */
  const OBJECT_STACK_SIZE: nat := 256

  /** sizeof(rjs_object_t) and sizeof(rjs_key_t) on an LP64 target. The
      proofs rely on one relation between them, KEY_SIZE >= OBJECT_SIZE: an
      arena too full for an object is too full for a key as well, so a child
      object that could not be allocated is never linked as a NULL value
      (Machine.OpenValueNeedsRoom). */
  const OBJECT_SIZE: nat := 24
  const KEY_SIZE: nat := 32

  /** A NULL object or key pointer. */
  const NULL_ID: int := -1

  /** The C string terminator. */
  const NUL: char := '\0'

  /** enum rjs_key_type. */
  datatype KeyType = KeyString | KeyObject | KeyNumber | KeyBoolean | KeyNull

  /** The integer value of each enumerator (RJS_KEY_STRING = 0, ...). */
  function TypeCode(t: KeyType): (code: int)
    ensures 0 <= code <= 4
  {
    match t
    case KeyString => 0
    case KeyObject => 1
    case KeyNumber => 2
    case KeyBoolean => 3
    case KeyNull => 4
  }

  /** A double produced by the number converter. Arithmetic is on reals; the
      only non-finite value the converter can produce is the reciprocal of
      zero, whose sign is not kept. */
  datatype Num = Finite(r: real) | Infinite

  /** rjs_value_t: the tag and the union member that goes with it. A string
      payload is None when its copy into the arena failed. */
  datatype Value =
    | Str(str: Option<string>)
    | Obj(obj: int)
    | Number(num: Num)
    | Bool(b: bool)
    | Null

  /** The `type` field of a value. */
  function Tag(v: Value): KeyType
  {
    match v
    case Str(_) => KeyString
    case Obj(_) => KeyObject
    case Number(_) => KeyNumber
    case Bool(_) => KeyBoolean
    case Null => KeyNull
  }

  /** rjs_key_t: an optional name (None for array elements and for a name
      whose copy failed), the value, and the id of the next key. */
  datatype KeyNode = KeyNode(name: Option<string>, value: Value, next: int)

  /** rjs_object_t: ids of the first and last key and the array flag. */
  datatype ObjectNode = ObjectNode(startKey: int, endKey: int, isArray: bool)

  /** Every value carries exactly one tag, and the tag names its payload. */
  lemma TagIsUnique(v: Value, t: KeyType)
    ensures Tag(v) == t <==>
      (t == KeyString && v.Str?) || (t == KeyObject && v.Obj?) ||
      (t == KeyNumber && v.Number?) || (t == KeyBoolean && v.Bool?) ||
      (t == KeyNull && v.Null?)
  {
  }
}
