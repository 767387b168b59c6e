/**
  From the raw sensor register to the automatic blinking period, in C's 32-bit
  arithmetic.
 */
module Sensor {
  import opened CInt

  /** Largest raw value whose scaled product still fits an int. */
  const PRODUCT_FITS := 1803092
  /** Largest raw value whose temperature is not negative. */
  const LAST_POSITIVE := 1872

  /** read_temp: millidegrees as uint32, every intermediate value wrapped as C does. */
  function ReadTemp(raw: nat): (t: nat)
    requires raw < U32
    ensures t < U32
  {
    var r := ToInt32(raw);
    if raw > 0x500 then (TruncDiv(ToInt32(-1191 * r), 10) + 223000) % U32
    else (TruncDiv(ToInt32(-1452 * r), 10) + 259000) % U32
  }

  /** The temperature in unbounded signed arithmetic. */
  function SignedTemp(raw: nat): int {
    if raw > 0x500 then 223000 - 1191 * raw / 10 else 259000 - 1452 * raw / 10
  }

  predicate IsAutoPeriod(p: int) { p == 500 || p == 200 || p == 100 || p == 50 }

  /** The thresholds of process_auto_mode. */
  function AutoPeriod(milli: nat): (p: nat)
    ensures IsAutoPeriod(p)
  {
    var c := milli / 1000;
    if c < 35 then 500 else if c < 40 then 200 else if c < 45 then 100 else 50
  }

  function PeriodForRaw(raw: nat): (p: nat)
    requires raw < U32
    ensures IsAutoPeriod(p)
  {
    AutoPeriod(ReadTemp(raw))
  }

  /** The uint32 reading is the signed temperature exactly up to raw 1872; past it,
      the reading is the negative temperature wrapped to about four million degrees. */
  lemma ReadingExactness(raw: nat)
    requires raw <= PRODUCT_FITS
    ensures ReadTemp(raw) == SignedTemp(raw) % U32
    ensures ReadTemp(raw) == SignedTemp(raw) <==> raw <= LAST_POSITIVE
    ensures raw > LAST_POSITIVE ==> ReadTemp(raw) >= U32 - INT_MAX
  {
    assert ToInt32(raw) == raw;
    if raw > 0x500 {
      assert ToInt32(-1191 * raw) == -1191 * raw;
    } else {
      assert ToInt32(-1452 * raw) == -1452 * raw;
    }
  }

  /** The reading in millidegrees is 259 - 0.1452 raw, respectively 223 - 0.1191 raw,
      degrees, rounded up. */
  lemma ReadingOfFormula(raw: nat)
    requires raw <= LAST_POSITIVE
    ensures 0 <= 10 * ReadTemp(raw) - (if raw <= 1280 then 2_590_000 - 1452 * raw else 2_230_000 - 1191 * raw) < 10
  {
    ReadingExactness(raw);
  }

  /** The automatic periods, on raw values; past 1872 the wrapped reading gives the fastest. */
  function Band(raw: nat): int {
    if raw <= 1494 then 50
    else if raw <= 1536 then 100
    else if raw <= 1578 then 200
    else if raw <= 1872 then 500
    else 50
  }

  lemma PeriodBands(raw: nat)
    requires raw <= PRODUCT_FITS
    ensures PeriodForRaw(raw) == Band(raw)
  {
    ReadingExactness(raw);
  }

  /** A larger raw value is never a higher temperature, also across the formula switch. */
  lemma SignedTempMonotone(a: nat, b: nat)
    requires a <= b
    ensures SignedTemp(a) >= SignedTemp(b)
  {
    if a <= 0x500 < b {
      assert SignedTemp(a) >= SignedTemp(0x500) > SignedTemp(0x501) >= SignedTemp(b);
    }
  }

  ghost predicate NeverSlowerWhenHotter(b: nat)
    requires b < U32
  {
    forall a: nat :: a <= b ==> PeriodForRaw(a) <= PeriodForRaw(b)
  }

  /** A hotter reading never gives a longer period, exactly on the raw values that do
      not wrap: any raw value past 1872 is colder than 1872, but gets period 50. */
  lemma HotterIsNeverSlower(b: nat)
    requires b <= PRODUCT_FITS
    ensures NeverSlowerWhenHotter(b) <==> b <= LAST_POSITIVE
  {
    if b <= LAST_POSITIVE {
      forall a: nat | a <= b ensures PeriodForRaw(a) <= PeriodForRaw(b) {
        SignedTempMonotone(a, b);
        ReadingExactness(a);
        ReadingExactness(b);
      }
    } else {
      ReadingExactness(b);
      ReadingExactness(LAST_POSITIVE);
      assert PeriodForRaw(LAST_POSITIVE) > PeriodForRaw(b);
    }
  }
}
