/** util/currency.go: the fixed whitelist of currency codes. */
module Currency {

  const USD: string := "USD"
  const EUR: string := "EUR"
  const IDR: string := "IDR"

  predicate IsUpperAscii(c: char) { 'A' <= c <= 'Z' }

  /** IsSupportedCurrency: exact, case-sensitive membership in the whitelist.
      Every supported code is a three-letter upper-case ASCII word. */
  function IsSupportedCurrency(currency: string): (r: bool)
    ensures r <==> currency in {USD, EUR, IDR}
    ensures r ==> |currency| == 3 && forall i :: 0 <= i < 3 ==> IsUpperAscii(currency[i])
  {
    match currency
    case "USD" => true
    case "EUR" => true
    case "IDR" => true
    case _ => false
  }

  /** The comparison is case-sensitive: lower-case and mixed-case spellings of
      a supported code, and the empty string, are all unsupported. */
  lemma CurrencyMatchIsCaseSensitive()
    ensures !IsSupportedCurrency("usd") && !IsSupportedCurrency("Usd")
    ensures !IsSupportedCurrency("eur") && !IsSupportedCurrency("idr")
    ensures !IsSupportedCurrency("")
  {
  }

  /** A code containing any non-capital rune is never supported. */
  lemma NonCapitalCodeUnsupported(currency: string, i: int)
    requires 0 <= i < |currency| && !IsUpperAscii(currency[i])
    ensures !IsSupportedCurrency(currency)
  {
  }
}
