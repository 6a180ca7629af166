/** Marker colours from price: a hue running from green (cheap) to red
    (expensive), with the saturation and lightness rising along with it. */
module ColorUtils {
  const MinPrice: real := 1000.0
  const MaxPrice: real := 10000.0

  function Min(a: real, b: real): real { if a <= b then a else b }
  function Max(a: real, b: real): real { if a >= b then a else b }

  /** The price mapped linearly onto [0, 1] over [MinPrice, MaxPrice] and
      clamped outside it. */
  function NormalizedPrice(price: real): (t: real)
    ensures 0.0 <= t <= 1.0
    ensures price <= MinPrice ==> t == 0.0
    ensures price >= MaxPrice ==> t == 1.0
    ensures MinPrice <= price <= MaxPrice ==> t * (MaxPrice - MinPrice) == price - MinPrice
  {
    Min(Max((price - MinPrice) / (MaxPrice - MinPrice), 0.0), 1.0)
  }

  /** An HSL colour: hue in degrees, saturation and lightness in percent. */
  datatype Hsl = Hsl(hue: real, saturation: real, lightness: real)

  /** The marker colour. */
  function PriceColor(price: real): (c: Hsl)
    ensures 0.0 <= c.hue <= 120.0
    ensures 70.0 <= c.saturation <= 100.0
    ensures 45.0 <= c.lightness <= 55.0
  {
    var t := NormalizedPrice(price);
    Hsl((1.0 - t) * 120.0, 70.0 + t * 30.0, 45.0 + t * 10.0)
  }

  /** The pale variant used for backgrounds. */
  function PriceLightColor(price: real): (c: Hsl)
    ensures 0.0 <= c.hue <= 120.0
    ensures 40.0 <= c.saturation <= 60.0
    ensures 85.0 <= c.lightness <= 95.0
  {
    var t := NormalizedPrice(price);
    Hsl((1.0 - t) * 120.0, 40.0 + t * 20.0, 85.0 + t * 10.0)
  }

  /** A dearer price never normalises lower. */
  lemma NormalizedMonotone(a: real, b: real)
    requires a <= b
    ensures NormalizedPrice(a) <= NormalizedPrice(b)
  {
    var x := (a - MinPrice) / (MaxPrice - MinPrice);
    var y := (b - MinPrice) / (MaxPrice - MinPrice);
    assert x <= y by { assert y - x == (b - a) / (MaxPrice - MinPrice); }
  }

  /** As the price rises the hue moves towards red and the colour grows
      more saturated and lighter, in both variants. */
  lemma ColorMonotone(a: real, b: real)
    requires a <= b
    ensures PriceColor(b).hue <= PriceColor(a).hue
    ensures PriceColor(a).saturation <= PriceColor(b).saturation
    ensures PriceColor(a).lightness <= PriceColor(b).lightness
    ensures PriceLightColor(b).hue <= PriceLightColor(a).hue
    ensures PriceLightColor(a).saturation <= PriceLightColor(b).saturation
    ensures PriceLightColor(a).lightness <= PriceLightColor(b).lightness
  {
    NormalizedMonotone(a, b);
  }

  /** Prices at or below the lower bound are full green, at or above the
      upper bound full red. */
  lemma ColorEndpoints(price: real)
    ensures price <= MinPrice ==> PriceColor(price) == Hsl(120.0, 70.0, 45.0)
    ensures price <= MinPrice ==> PriceLightColor(price) == Hsl(120.0, 40.0, 85.0)
    ensures price >= MaxPrice ==> PriceColor(price) == Hsl(0.0, 100.0, 55.0)
    ensures price >= MaxPrice ==> PriceLightColor(price) == Hsl(0.0, 60.0, 95.0)
  {
  }

  /** Inside the range the hue falls linearly with the price. */
  lemma HueInRange(price: real)
    requires MinPrice <= price <= MaxPrice
    ensures PriceColor(price).hue * (MaxPrice - MinPrice) == 120.0 * (MaxPrice - price)
  {
    var t := NormalizedPrice(price);
    assert (1.0 - t) * 120.0 * (MaxPrice - MinPrice) == 120.0 * ((MaxPrice - MinPrice) - t * (MaxPrice - MinPrice));
  }

  /** Both variants share the hue; the pale one is less saturated and
      lighter. */
  lemma LightVariant(price: real)
    ensures PriceLightColor(price).hue == PriceColor(price).hue
    ensures PriceLightColor(price).saturation < PriceColor(price).saturation
    ensures PriceLightColor(price).lightness > PriceColor(price).lightness
  {
  }

  /** The midpoint of the range is yellow. */
  lemma MidpointIsYellow()
    ensures PriceColor(5500.0) == Hsl(60.0, 85.0, 50.0)
  {
    assert NormalizedPrice(5500.0) == 0.5;
  }
}
