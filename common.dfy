/** Types shared by every module of the inventory model. */
module Common {

  /** A UUID, as the 128-bit integer it encodes. */
  type Uuid = x: int | 0 <= x < 0x1_0000_0000_0000_0000_0000_0000_0000_0000

  /** `uuid.UUID(int=0)`, the placeholder the services store as `updated_by` of a new record. */
  const ZeroUuid: Uuid := 0

  /** An instant read from the clock (`datetime.now()`, localised or not). The clock is an input of the model. */
  type Time = int

  datatype Option<T> = None | Some(value: T)

  /** What a service hands back: the value, or the exception it reports. */
  datatype Result<T, E> = Ok(value: T) | Err(error: E)

  /** One field of a partial update payload: left out of the payload, or given a value. */
  datatype Patch<T> = Unset | Set(value: T)

  /** The value a field has after a payload is laid over the stored record (`copy(update=... exclude_unset=True)`). */
  function Overlay<T>(stored: T, p: Patch<T>): T
  {
    match p
    case Unset => stored
    case Set(v) => v
  }

  /** An id received by a service: either a well-formed UUID or text that is not one. */
  datatype IdArg = Wellformed(uuid: Uuid) | Malformed(text: string)

  /** The `is_valid_uuid` guard the services run before any lookup. */
  predicate IsValidUuid(id: IdArg)
  {
    id.Wellformed?
  }

  /** True when `id` names a member of `table`; a missing id (None) never does. */
  predicate Names(table: set<Uuid>, id: Option<Uuid>)
  {
    id.Some? && id.value in table
  }

  /** ASCII lower- and upper-casing of one character. */
  function LowerChar(c: char): char
  {
    if 'A' <= c <= 'Z' then (c as int + 32) as char else c
  }

  function UpperChar(c: char): char
  {
    if 'a' <= c <= 'z' then (c as int - 32) as char else c
  }

  /** `str.lower()` restricted to ASCII letters. */
  function Lower(s: string): (r: string)
    ensures |r| == |s|
    ensures forall i :: 0 <= i < |s| ==> r[i] == LowerChar(s[i])
  {
    seq(|s|, i requires 0 <= i < |s| => LowerChar(s[i]))
  }

  /** `str.upper()` restricted to ASCII letters. */
  function Upper(s: string): (r: string)
    ensures |r| == |s|
    ensures forall i :: 0 <= i < |s| ==> r[i] == UpperChar(s[i])
  {
    seq(|s|, i requires 0 <= i < |s| => UpperChar(s[i]))
  }

  /** `s.find(sub) >= 0`: `sub` occurs somewhere in `s`. */
  predicate Occurs(sub: string, s: string)
  {
    exists i :: 0 <= i <= |s| && sub <= s[i..]
  }

  /** Python's `int(x)` on a Decimal: truncation toward zero. */
  function TruncToInt(x: real): (r: int)
    ensures x >= 0.0 ==> r as real <= x < r as real + 1.0
    ensures x < 0.0 ==> r as real - 1.0 < x <= r as real
  {
    if x >= 0.0 then x.Floor else -((-x).Floor)
  }
}
