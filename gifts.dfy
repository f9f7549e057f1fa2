/** The gift registry and the weighted gift draw of constants.ts, with the
    height and radius bounds of the tree placement `getTreePos`. */
module Gifts {
  import opened Wrappers
  import RealMath

  /** What `createCardTexture` is asked to draw: an icon on a coloured card,
      an optional bottom label, and the mystery decoration flag. */
  datatype CardTexture = CardTexture(icon: string, color: string, bottomLabel: Option<string>, isMystery: bool)

  /** One entry of `RAW_GIFTS`. */
  datatype RawGift = RawGift(name: string, value: int, weight: int, icon: string, color: string)

  /** A `GiftItem`: a raw gift with its own card texture. */
  datatype GiftItem = GiftItem(name: string, value: int, weight: int, icon: string, texture: CardTexture)

  const RAW_GIFTS: seq<RawGift> := [
    RawGift("iPad Pro", 3000, 1, "📱", "#fffacd"),
    RawGift("名牌大衣", 1000, 3, "🧥", "#f0e68c"),
    RawGift("西太后围巾", 700, 5, "🧣", "#ffb6c1"),
    RawGift("兰蔻套装", 550, 8, "💄", "#dda0dd"),
    RawGift("Jellycat 玩偶", 300, 15, "🧸", "#e0ffff"),
    RawGift("身体乳", 290, 20, "🧴", "#afeeee"),
    RawGift("家居服 & 拖鞋", 200, 25, "👚", "#f0fff0"),
    RawGift("现金 ¥188", 188, 30, "🧧", "#ffe4b5"),
    RawGift("办公室午休床", 120, 35, "🛏️", "#f5f5dc"),
    RawGift("再接再厉", 0, 12, "💫", "#dcdcdc")
  ]

  /** A registry entry: the raw fields and a card showing the icon on the
      gift's colour, with no label baked in. */
  function ToGiftItem(g: RawGift): GiftItem
  {
    GiftItem(g.name, g.value, g.weight, g.icon, CardTexture(g.icon, g.color, None, false))
  }

  const GIFT_REGISTRY: seq<GiftItem> :=
    seq(|RAW_GIFTS|, i requires 0 <= i < |RAW_GIFTS| => ToGiftItem(RAW_GIFTS[i]))

  /** The registry keeps the raw gifts' order, length and fields. */
  lemma RegistryMirrorsRawGifts()
    ensures |GIFT_REGISTRY| == |RAW_GIFTS| == 10
    ensures forall i :: 0 <= i < |GIFT_REGISTRY| ==>
      var g, item := RAW_GIFTS[i], GIFT_REGISTRY[i];
      && item.name == g.name && item.value == g.value && item.weight == g.weight && item.icon == g.icon
      && item.texture == CardTexture(g.icon, g.color, None, false)
  {}

  /** Sum of the first `k` weights, accumulated from the left as `reduce` does. */
  function PrefixWeight(gs: seq<GiftItem>, k: nat): (w: int)
    requires k <= |gs|
    ensures (forall i :: 0 <= i < k ==> gs[i].weight >= 0) ==> w >= 0
    ensures k > 0 && (forall i :: 0 <= i < k ==> gs[i].weight > 0) ==> w >= k
  {
    if k == 0 then 0 else PrefixWeight(gs, k - 1) + gs[k - 1].weight
  }

  function TotalWeight(gs: seq<GiftItem>): int
  {
    PrefixWeight(gs, |gs|)
  }

  ghost predicate PositiveWeights(gs: seq<GiftItem>)
  {
    forall i :: 0 <= i < |gs| ==> gs[i].weight > 0
  }

  /** Every registry weight is positive and they add up to 154. */
  lemma RegistryWeights()
    ensures PositiveWeights(GIFT_REGISTRY)
    ensures TotalWeight(GIFT_REGISTRY) == 154
  {
    var gs := GIFT_REGISTRY;
    assert PrefixWeight(gs, 1) == 1;
    assert PrefixWeight(gs, 3) == 9;
    assert PrefixWeight(gs, 5) == 32;
    assert PrefixWeight(gs, 7) == 77;
    assert PrefixWeight(gs, 9) == 142;
  }

  lemma {:induction false} PrefixWeightMonotone(gs: seq<GiftItem>, a: nat, b: nat)
    requires PositiveWeights(gs) && a <= b <= |gs|
    ensures PrefixWeight(gs, a) <= PrefixWeight(gs, b)
    ensures a < b ==> PrefixWeight(gs, a) < PrefixWeight(gs, b)
    decreases b
  {
    if a < b {
      PrefixWeightMonotone(gs, a, b - 1);
    }
  }

  /** The loop of `getRandomGift` from item `i` on, with `remaining` left of
      the random number: the first item whose weight exceeds what remains,
      subtracting each weight passed over. `None` when the loop runs out. */
  function ScanFrom(gs: seq<GiftItem>, i: nat, remaining: real): (hit: Option<nat>)
    requires i <= |gs|
    ensures hit.Some? ==> i <= hit.value < |gs|
    decreases |gs| - i
  {
    if i == |gs| then None
    else if remaining < gs[i].weight as real then Some(i)
    else ScanFrom(gs, i + 1, remaining - gs[i].weight as real)
  }

  /** The item index `getRandomGift` returns for the scaled random number `r`:
      the scan's hit, or the last item as fallback. */
  function DrawIndex(gs: seq<GiftItem>, r: real): (k: nat)
    requires |gs| > 0
    ensures k < |gs|
  {
    match ScanFrom(gs, 0, r)
    case Some(i) => i
    case None => |gs| - 1
  }

  /** The scan stops at the item whose cumulative interval holds the random
      number, and runs out only when the number reaches the total. */
  lemma {:induction false} ScanFromInterval(gs: seq<GiftItem>, i: nat, remaining: real)
    requires i <= |gs| && remaining >= 0.0
    ensures match ScanFrom(gs, i, remaining)
      case Some(k) =>
        (PrefixWeight(gs, k) as real <= remaining + PrefixWeight(gs, i) as real < PrefixWeight(gs, k + 1) as real)
      case None => remaining + PrefixWeight(gs, i) as real >= TotalWeight(gs) as real
    decreases |gs| - i
  {
    if i < |gs| && remaining >= gs[i].weight as real {
      ScanFromInterval(gs, i + 1, remaining - gs[i].weight as real);
    }
  }

  /** For a random number in [0, total) the draw is exactly the item whose
      interval [prefix(k), prefix(k) + weight(k)) contains it: each item is
      drawn on an interval as long as its weight. */
  lemma DrawIndexIsInterval(gs: seq<GiftItem>, r: real, k: nat)
    requires PositiveWeights(gs) && |gs| > 0 && 0.0 <= r < TotalWeight(gs) as real && k < |gs|
    ensures DrawIndex(gs, r) == k <==>
      PrefixWeight(gs, k) as real <= r < PrefixWeight(gs, k + 1) as real
  {
    ScanFromInterval(gs, 0, r);
    var d := DrawIndex(gs, r);
    assert PrefixWeight(gs, d) as real <= r < PrefixWeight(gs, d + 1) as real;
    if PrefixWeight(gs, k) as real <= r < PrefixWeight(gs, k + 1) as real && d != k {
      if d < k {
        PrefixWeightMonotone(gs, d + 1, k);
      } else {
        PrefixWeightMonotone(gs, k + 1, d);
      }
    }
  }

  /** A random number at or above the total falls back to the last item; one
      below zero takes the first. */
  lemma DrawIndexOutOfRange(gs: seq<GiftItem>, r: real)
    requires PositiveWeights(gs) && |gs| > 0
    ensures r >= TotalWeight(gs) as real ==> DrawIndex(gs, r) == |gs| - 1
    ensures r < 0.0 ==> DrawIndex(gs, r) == 0
  {
    if r >= TotalWeight(gs) as real {
      PrefixWeightMonotone(gs, 0, |gs|);
      ScanFromInterval(gs, 0, r);
      match ScanFrom(gs, 0, r)
      case Some(k) =>
        PrefixWeightMonotone(gs, k + 1, |gs|);
      case None =>
    }
  }

  /** A larger random number never draws an earlier item. */
  lemma DrawIndexMonotone(gs: seq<GiftItem>, r1: real, r2: real)
    requires PositiveWeights(gs) && |gs| > 0 && r1 <= r2
    ensures DrawIndex(gs, r1) <= DrawIndex(gs, r2)
  {
    DrawIndexOutOfRange(gs, r1);
    DrawIndexOutOfRange(gs, r2);
    var total := TotalWeight(gs) as real;
    if 0.0 <= r1 && r2 < total {
      var k1, k2 := DrawIndex(gs, r1), DrawIndex(gs, r2);
      DrawIndexIsInterval(gs, r1, k1);
      DrawIndexIsInterval(gs, r2, k2);
      if k1 > k2 {
        PrefixWeightMonotone(gs, k2 + 1, k1);
      }
    }
  }

  /** The registry's extremes: a zero draws "iPad Pro"; anything from 142 on,
      the start of the last interval, draws "再接再厉". */
  lemma RegistryBoundaryDraws(r: real)
    ensures DrawIndex(GIFT_REGISTRY, 0.0) == 0 && GIFT_REGISTRY[0].name == "iPad Pro"
    ensures r >= 142.0 ==> DrawIndex(GIFT_REGISTRY, r) == 9 && GIFT_REGISTRY[9].name == "再接再厉"
  {
    RegistryWeights();
    var gs := GIFT_REGISTRY;
    if 142.0 <= r < 154.0 {
      assert PrefixWeight(gs, 9) == 142;
      DrawIndexIsInterval(gs, r, 9);
    }
    DrawIndexOutOfRange(gs, r);
  }

  /** `getRandomGift`, with `Math.random()` passed in as `u`. */
  method GetRandomGift(u: real) returns (gift: GiftItem)
    ensures gift == GIFT_REGISTRY[DrawIndex(GIFT_REGISTRY, u * TotalWeight(GIFT_REGISTRY) as real)]
  {
    var totalWeight := TotalWeight(GIFT_REGISTRY);
    var random := u * totalWeight as real;
    ghost var drawn := random;
    assert drawn == u * TotalWeight(GIFT_REGISTRY) as real;
    for i := 0 to |GIFT_REGISTRY|
      invariant ScanFrom(GIFT_REGISTRY, 0, drawn) == ScanFrom(GIFT_REGISTRY, i, random)
    {
      var item := GIFT_REGISTRY[i];
      if random < item.weight as real {
        assert ScanFrom(GIFT_REGISTRY, i, random) == Some(i);
        assert item == GIFT_REGISTRY[DrawIndex(GIFT_REGISTRY, drawn)];
        return item;
      }
      random := random - item.weight as real;
    }
    return GIFT_REGISTRY[|GIFT_REGISTRY| - 1];
  }

  /** For `u` in [0, 1) the draw is the item whose weight interval holds
      `u * 154`. */
  lemma RandomGiftIsWeighted(u: real, k: nat)
    requires 0.0 <= u < 1.0 && k < |GIFT_REGISTRY|
    ensures var r := u * TotalWeight(GIFT_REGISTRY) as real;
      DrawIndex(GIFT_REGISTRY, r) == k <==>
        PrefixWeight(GIFT_REGISTRY, k) as real <= r < PrefixWeight(GIFT_REGISTRY, k + 1) as real
  {
    RegistryWeights();
    DrawIndexIsInterval(GIFT_REGISTRY, u * 154.0, k);
  }

  // ---------------------------------------------------------------------------
  // Mystery cards

  const MYSTERY_COLORS: seq<string> := ["#e6e6fa", "#ffe4e1", "#f0fff0", "#e0ffff", "#fffacd"]
  const MYSTERY_ICONS: seq<string> := ["🎁", "✨", "🎄", "⭐", "🎀"]

  /** One mystery card per mystery colour, labelled "???". */
  const MYSTERY_TEXTURES: seq<CardTexture> :=
    seq(|MYSTERY_COLORS|, i requires 0 <= i < |MYSTERY_COLORS| =>
      CardTexture(MYSTERY_ICONS[i % |MYSTERY_ICONS|], MYSTERY_COLORS[i], Some("???"), true))

  // ---------------------------------------------------------------------------
  // Tree placement bounds

  /** Height, radius bound and radius of a `getTreePos` sample; the angle and
      the Cartesian coordinates are not modelled. */
  datatype TreePolar = TreePolar(h: real, maxR: real, r: real)

  /** `getTreePos` with its random draws passed in: `cbrtDraw` is
      `Math.cbrt(Math.random())`, `bottomDraw` the draw compared with 0.08,
      `lowDraw` the draw scaled to the bottom band, `sqrtDraw` is
      `Math.sqrt(Math.random())`. */
  function TreePosition(forceBottom: bool, cbrtDraw: real, bottomDraw: real, lowDraw: real, sqrtDraw: real): (p: TreePolar)
    requires 0.0 <= cbrtDraw < 1.0 && 0.0 <= lowDraw < 1.0 && 0.0 <= sqrtDraw < 1.0
    ensures 0.0 <= p.h <= 12.0
    ensures (forceBottom || bottomDraw < 0.08) ==> p.h < 0.2
    ensures 0.0 < p.maxR <= 3.8
    ensures 0.0 <= p.r <= p.maxR
  {
    var hNorm := 1.0 - cbrtDraw;
    var h := if forceBottom || bottomDraw < 0.08 then 0.2 * lowDraw else 12.0 * hNorm;
    var maxR := 3.8 * (1.0 - h / 12.5);
    var r := maxR * sqrtDraw;
    assert r <= maxR by {
      assert maxR - r == maxR * (1.0 - sqrtDraw);
      RealMath.MulSignNonNeg(maxR, 1.0 - sqrtDraw);
    }
    RealMath.MulSignNonNeg(maxR, sqrtDraw);
    TreePolar(h, maxR, r)
  }
}
