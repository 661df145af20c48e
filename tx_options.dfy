/**
 * The initial record of a transaction stream, as built by `_createTxOptions`
 * (app/src/@libs/webapp-fns/tx/internal/_createTxOptions.ts).
 */
module TxOptions {

  /** Phases of a transaction stream. Only POST is used by this core; the
      stream's later phases are kept apart under one constructor. */
  datatype TxStreamPhase = Post | LaterPhase(name: string)

  /** One line of a rendered receipt. */
  datatype TxReceipt = TxReceipt(name: string, value: string)

  /** What a transaction stream renders at each step: the value it works on,
      the phase it is in and the receipts gathered so far. */
  datatype TxResultRendering<T> = TxResultRendering(value: T, phase: TxStreamPhase, receipts: seq<TxReceipt>)

  /** `_createTxOptions(tx)`: a closure whose (void) argument is ignored and
      which yields the POST-phase record of `tx` with no receipts. As the
      record holds `tx` unchanged, closures built from different
      transactions yield different records. */
  function CreateTxOptions<T>(tx: T): (start: () -> TxResultRendering<T>)
    ensures start().value == tx
    ensures start().phase == Post
    ensures start().receipts == []
  {
    () => TxResultRendering(tx, Post, [])
  }
}
