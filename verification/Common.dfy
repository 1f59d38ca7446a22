/** Values and conventions shared by every part of the model. */
module Common {
  datatype Option<+T> = None | Some(value: T)

  datatype Result<+T, +E> = Ok(value: T) | Err(error: E)

  /** A UUID. uuid.New() is modelled as drawing the next number of a supply, so a drawn id is one nobody holds yet. */
  type Id = nat

  type Time = int

  /** Go's int16(n): the low sixteen bits, read as a signed number. */
  function Int16(n: int): (r: int)
    ensures -0x8000 <= r < 0x8000
    ensures (r - n) % 0x1_0000 == 0
    ensures -0x8000 <= n < 0x8000 <==> r == n
  {
    (n + 0x8000) % 0x1_0000 - 0x8000
  }

  /** Go's int32(n). */
  function Int32(n: int): (r: int)
    ensures -0x8000_0000 <= r < 0x8000_0000
    ensures (r - n) % 0x1_0000_0000 == 0
    ensures -0x8000_0000 <= n < 0x8000_0000 <==> r == n
  {
    (n + 0x8000_0000) % 0x1_0000_0000 - 0x8000_0000
  }

  /**
   * What a connection does to the calls to come: it is up for good, or the next call goes well, or the next call
   * reports an error and takes effect all the same if it is `applied`. So any pattern of failing calls is a link.
   */
  datatype Link = Up | Good(rest: Link) | Bad(applied: bool, rest: Link)

  datatype Reply = Reply(ok: bool, applied: bool, link: Link)

  /** One call over the link. */
  function Call(link: Link): (r: Reply)
    ensures r.ok ==> r.applied
  {
    match link
    case Up => Reply(true, true, Up)
    case Good(rest) => Reply(true, true, rest)
    case Bad(applied, rest) => Reply(false, applied, rest)
  }

  function CountIf(b: bool): nat { if b then 1 else 0 }

  /** A decoded JSON value; numbers, booleans and null, which no reader here accepts, are Other. */
  datatype Json = Str(text: string) | Arr(items: seq<Json>) | Obj(fields: map<string, Json>) | Other

  /** x, _ := m[key].(string): the text under a key, or the empty one. */
  function StringAt(m: map<string, Json>, key: string): string
  {
    if key in m && m[key].Str? then m[key].text else ""
  }
}
