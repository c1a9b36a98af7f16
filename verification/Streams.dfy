/** Byte streams and the kernel's side of reading and writing them. */
module Streams {

  newtype Byte = b: int | 0 <= b < 256

  const NEWLINE: Byte := 10
  const BLOCK := 65536

  function Min(a: int, b: int): int {
    if a <= b then a else b
  }

  /**
    What `read` returns from a stream with these bytes still unread: nothing at
    the end of the stream (or for a request of zero bytes), otherwise some
    nonempty prefix of at most `request` bytes, chosen by the schedule.
  */
  function OsRead(unread: seq<Byte>, request: nat, choice: nat): (chunk: seq<Byte>)
    ensures chunk <= unread && |chunk| <= request
    ensures chunk == [] <==> unread == [] || request == 0
  {
    if unread == [] || request == 0 then []
    else unread[..Min(Min(request, |unread|), 1 + choice)]
  }

  /** How many of the offered bytes a non-blocking `write` takes. */
  function OsWrite(offered: nat, choice: nat): (taken: nat)
    ensures taken <= offered
  {
    Min(offered, choice)
  }
}
