/**
 * The server's wire records: the sticker-data response, the saved sticker
 * and the save/load session payloads. Numbers are `real`.
 */
module Models {

  datatype Size = Size(width: real, height: real)

  datatype Position = Position(x: real, y: real)

  /** What the sticker-data endpoint answers for a product page. */
  datatype StickerDataResponse = StickerDataResponse(productImage: string, size: Size)

  /** One sticker of a saved session. */
  datatype SavedStickerData = SavedStickerData(stickerId: string, url: string, size: Size, position: Position)

  datatype SaveSessionRequest = SaveSessionRequest(sessionId: string, stickers: seq<SavedStickerData>)

  /** The zero value Go returns alongside an error. */
  const EmptyResponse: StickerDataResponse := StickerDataResponse("", Size(0.0, 0.0))
}
