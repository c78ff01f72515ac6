/** Client operations and the commands that the replicated log carries. */
module Ops {
  newtype byte = x: int | 0 <= x < 256

  type Bytes = seq<byte>

  datatype Option<+T> = None | Some(value: T)

  datatype Kind = PUT | DELETE | GET

  /** A client request; `id` is the tag that tells two requests apart. */
  datatype Op = Op(kind: Kind, key: Bytes, value: Bytes, id: int)

  /** `Nil` is the command of the sentinel entry at log index 0. */
  datatype Command = Nil | Run(op: Op)
}
