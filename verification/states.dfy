/** The two exchange state groups, `CryptoToFiatExchange` and
    `FiatToCryptoExchange`, as ordered lists of state names. */
module States {

  datatype StateName =
    | SelectCrypto
    | SelectFiat
    | SelectPaymentMethod
    | EnterAmount
    | EnterPaymentDetails
    | EnterWalletAddress
    | EnterComment
    | Confirm

  /** `CryptoToFiatExchange`, in declaration order. */
  const CryptoToFiatStates: seq<StateName> :=
    [SelectCrypto, SelectFiat, SelectPaymentMethod, EnterAmount, EnterPaymentDetails, EnterComment, Confirm]

  /** `FiatToCryptoExchange`, in declaration order. */
  const FiatToCryptoStates: seq<StateName> :=
    [SelectFiat, SelectCrypto, SelectPaymentMethod, EnterAmount, EnterWalletAddress, EnterComment, Confirm]

  predicate Distinct(states: seq<StateName>) {
    forall i, j :: 0 <= i < j < |states| ==> states[i] != states[j]
  }

  /** Both groups declare seven distinct states and end in `confirm`. */
  lemma GroupsWellFormed()
    ensures |CryptoToFiatStates| == 7 && |FiatToCryptoStates| == 7
    ensures Distinct(CryptoToFiatStates) && Distinct(FiatToCryptoStates)
    ensures CryptoToFiatStates[6] == Confirm && FiatToCryptoStates[6] == Confirm
  {
  }

  /** The groups differ only in the order of the two currency selections
      and in the fifth state: payment details against a wallet address. */
  lemma GroupsDiffer()
    ensures forall k :: 0 <= k < 7 && k !in {0, 1, 4} ==> CryptoToFiatStates[k] == FiatToCryptoStates[k]
    ensures CryptoToFiatStates[0] == FiatToCryptoStates[1] && CryptoToFiatStates[1] == FiatToCryptoStates[0]
    ensures CryptoToFiatStates[4] == EnterPaymentDetails && FiatToCryptoStates[4] == EnterWalletAddress
  {
  }
}
