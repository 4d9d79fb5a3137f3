/** util/random.go: random test-data helpers. The generator `rand.Intn(n)` is
    an oracle: each call is represented by the value it drew, which Go
    promises to lie in [0, n). */
module Random {
  import opened GoInt
  import Currency

  const Letters: string := "abcdefghijklmnopqrstuvwxyzABCDEFGHIJKLMNOPQRSTUVWXYZ"

  /** What rand.Intn(n) may return; it panics when n <= 0. */
  predicate IsDraw(draw: int, n: int) { 0 < n && 0 <= draw < n }

  /** The span `max - min + 1` as Go computes it in 64-bit `int`. */
  function Span(min: int, max: int): int {
    Wrap64(max - min + 1)
  }

  /** RandomInt(min, max) with `draw` the value rand.Intn returned. The
      requires are exactly what keeps rand.Intn from panicking. For ordered
      bounds the result is `min + draw`, hence inside [min, max]. */
  function RandomInt(min: int, max: int, draw: int): (r: int)
    requires IsInt64(min) && IsInt64(max)
    requires IsDraw(draw, Span(min, max))
    ensures IsInt64(r)
    ensures min <= max ==> min <= r <= max && r - min == draw
  {
    Wrap64(min + draw)
  }

  /** Every value of [min, max] is produced by some draw, so the helper can
      return any value of the range. */
  lemma RandomIntCoversRange(min: int, max: int, v: int)
    requires IsInt64(min) && IsInt64(max) && max - min < INT64_MAX
    requires min <= v <= max
    ensures IsDraw(v - min, Span(min, max)) && RandomInt(min, max, v - min) == v
  {
  }

  /** A span that does not fit in `int` wraps: for the full int64 range the
      span is 0 and rand.Intn panics, so no draw exists. */
  lemma FullRangeSpanWraps()
    ensures Span(INT64_MIN, INT64_MAX) == 0
    ensures forall d :: !IsDraw(d, Span(INT64_MIN, INT64_MAX))
  {
  }

  /** RandomString(n): one rand.Intn(52) draw per character, each choosing a
      letter. A non-positive n gives the empty string. */
  method RandomString(n: int, draws: seq<int>) returns (s: string)
    requires n <= |draws|
    requires forall i :: 0 <= i < |draws| ==> 0 <= draws[i] < |Letters|
    ensures |s| == (if n < 0 then 0 else n)
    ensures |s| <= |draws|
    ensures forall i :: 0 <= i < |s| ==> s[i] == Letters[draws[i]]
    ensures forall i :: 0 <= i < |s| ==> s[i] in Letters
  {
    s := [];
    var i := 0;
    while i < n
      invariant 0 <= i <= (if n < 0 then 0 else n) && |s| == i
      invariant forall j :: 0 <= j < i ==> s[j] == Letters[draws[j]]
      invariant forall j :: 0 <= j < i ==> s[j] in Letters
    {
      var c := Letters[draws[i]];
      s := s + [c];
      i := i + 1;
    }
  }

  /** RandomOwner: six random letters. */
  method RandomOwner(draws: seq<int>) returns (owner: string)
    requires |draws| >= 6
    requires forall i :: 0 <= i < |draws| ==> 0 <= draws[i] < |Letters|
    ensures |owner| == 6
    ensures forall i :: 0 <= i < 6 ==> owner[i] in Letters
  {
    owner := RandomString(6, draws);
  }

  /** RandomMoney: RandomInt(0, 1000). */
  function RandomMoney(draw: int): (r: int)
    requires IsDraw(draw, 1001)
    ensures 0 <= r <= 1000
  {
    RandomInt(0, 1000, draw)
  }

  /** The candidate list RandomCurrency draws from, in the source's order. */
  const Currencies: seq<string> := [Currency.EUR, Currency.USD, Currency.IDR]

  /** RandomCurrency: a rand.Intn(3) draw into the candidate list. */
  function RandomCurrency(draw: int): (r: string)
    requires IsDraw(draw, |Currencies|)
    ensures Currency.IsSupportedCurrency(r)
  {
    Currencies[draw]
  }

  /** Conversely every supported currency is drawn by some draw. */
  lemma RandomCurrencyCoversWhitelist(c: string)
    requires Currency.IsSupportedCurrency(c)
    ensures exists d :: IsDraw(d, |Currencies|) && RandomCurrency(d) == c
  {
    if c == Currency.EUR {
      assert RandomCurrency(0) == c;
    } else if c == Currency.USD {
      assert RandomCurrency(1) == c;
    } else {
      assert RandomCurrency(2) == c;
    }
  }
}
