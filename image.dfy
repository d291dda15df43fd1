/** The image-generation profile (src/openai_v1_image.rs). It is read from its file as it
    stands: nothing folds its `inherits` list. */
module Image {
  import opened Wrappers
  import opened Shared

  /** The fixed set of image dimensions the endpoint accepts. */
  datatype ImageSize = Size256x256 | Size512x512 | Size1024x1024 | Size1792x1024 | Size1024x1792

  /** `OpenAIImageGeneration`: all fields but `inherits` are required by the parse. */
  datatype ImageGeneration = ImageGeneration(
    inherits: Option<seq<string>>,
    model: string,
    n: u32,
    size: ImageSize,
    messages: seq<Message>)
}
