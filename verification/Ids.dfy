/** Ids shared by the modules. They stand for UUIDs. */
module Ids {
  /** A user id, whose text enters pair keys. */
  datatype UserId = UserId(text: string)

  type ConvId = nat
}
