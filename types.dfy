/** Records shared by the whole application (types.ts). */
module Types {

  /** An optional value; `undefined` in the source. */
  datatype Option<T> = None | Some(value: T)

  /** The five lottery matrices the user can select (the `LotteryType` enum). */
  datatype LotteryType = Lotto645 | Lotto649 | Powerball | MegaMillions | Custom

  /** One committed prediction (the `LotteryResult` interface). The enum field is
      called `type` in the source, a reserved word here. */
  datatype LotteryResult = LotteryResult(
    numbers: seq<int>,
    specialNumber: Option<int>,
    timestamp: int,
    id: string,
    analysis: string,
    lotteryType: LotteryType)

  /** JavaScript truthiness of an optional number: present and not zero. */
  predicate Truthy(o: Option<int>) {
    o.Some? && o.value != 0
  }
}
