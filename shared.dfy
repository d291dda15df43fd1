/** Types shared by both request kinds (src/openai_shared.rs; the chat and image files
    each declare an identical role/content message struct, modelled once here). */
module Shared {

  /** Rust's `u32`: the width of `max_tokens` and of the image count `n`. */
  newtype u32 = x: int | 0 <= x < 0x1_0000_0000

  /** One conversation turn. */
  datatype Message = Message(role: string, content: string)
}
