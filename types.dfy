/** The data shapes shared by the app, the recorder and the service
    (types.ts). */
module Types {

  newtype byte = b: int | 0 <= b < 256

  /** The session status enumeration. */
  datatype ProcessingStatus = Idle | Recording | Processing | Success | Error

  /** One extracted expense line. Amounts are exact integers. */
  datatype ExpenseItem = ExpenseItem(item: string, amount: int, category: string)

  /** The structured report the remote model returns. */
  datatype ExpenseResponse = ExpenseResponse(
    transcription: string,
    translation: string,
    expenses: seq<ExpenseItem>,
    totalAmount: int,
    currency: string)

  /** An audio blob: its bytes and its MIME type (`""` when the browser
      gives none). */
  datatype Blob = Blob(bytes: seq<byte>, mimeType: string)
}
