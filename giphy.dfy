/** The records the feed decodes into and the errors the program raises
    (src/main.rs, GiphyResponse, GiphyGif, GiphyUser, GiphyError). */
module Giphy {

  /** Rust `u64`. */
  type U64 = x: int | 0 <= x < 0x1_0000_0000_0000_0000

  /** Rust `u16`. */
  type U16 = x: int | 0 <= x < 0x1_0000

  type Url = string

  /** The part of a `serde_json::Value` the program inspects: strings and
      objects; every other kind of value is `JOther`. */
  datatype Json = JStr(str: string) | JObj(fields: map<string, Json>) | JOther

  datatype User = User(id: U64, name: string, username: string)

  /** One feed item. `images` maps a rendition name to its untyped metadata;
      `createTime` is the `create_datetime` field. */
  datatype Gif = Gif(
    id: string,
    indexId: U64,
    images: map<string, Json>,
    title: string,
    user: User,
    createTime: string)

  /** `GiphyError` with its three variants, plus the foreign errors that
      `anyhow` wraps: `Transport` for a failed request or body read
      (reqwest), `Decode` for a body that is not a feed page (serde_json). */
  datatype Error =
    | ResponseError(code: U16)
    | NoSourceVideo(gifId: string)
    | InvalidDate(raw: string)
    | Transport
    | Decode
}
