/** The photo-card gallery of components/ImageGallery.tsx: eight cards set on
    the tree, the pinch-driven choice of one card and of the gift it reveals,
    and what each card shows. */
module Gallery {
  import opened Wrappers
  import opened RealMath
  import opened Gifts

  datatype Vec3 = Vec3(x: real, y: real, z: real)

  /** One card of `items`: its id, its mystery texture and its two positions. */
  datatype Item = Item(id: nat, mysteryTex: CardTexture, scatterPos: Vec3, treePos: Vec3)

  const CARD_COUNT: nat := 8
  const PUSH_OUT_RADIUS: real := 0.1
  const PUSH_OUT_FACTOR: real := 1.3
  const CONGRATULATIONS: string := "恭喜！你发现了："

  function HorizontalRadiusSquared(p: Vec3): real
  {
    p.x * p.x + p.z * p.z
  }

  /** A tree position pushed away from the trunk: scaled by 1.3 horizontally
      when its horizontal radius exceeds 0.1. */
  function PushOut(sqrt: real -> real, p: Vec3): (q: Vec3)
    ensures q.y == p.y
    ensures q == p || q == Vec3(1.3 * p.x, p.y, 1.3 * p.z)
  {
    var r := sqrt(HorizontalRadiusSquared(p));
    if r > PUSH_OUT_RADIUS then p.(x := p.x * PUSH_OUT_FACTOR, z := p.z * PUSH_OUT_FACTOR) else p
  }

  /** The push-out keeps the height, scales the horizontal coordinates exactly
      when the squared horizontal radius exceeds 0.01, and therefore leaves no
      card with a horizontal radius in (0.1, 0.13]. */
  lemma PushOutEffect(sqrt: real -> real, p: Vec3)
    requires IsSqrt(sqrt)
    ensures PushOut(sqrt, p).y == p.y
    ensures HorizontalRadiusSquared(p) > 0.01 ==> PushOut(sqrt, p) == Vec3(1.3 * p.x, p.y, 1.3 * p.z)
    ensures HorizontalRadiusSquared(p) <= 0.01 ==> PushOut(sqrt, p) == p
    ensures var q := HorizontalRadiusSquared(PushOut(sqrt, p)); q <= 0.01 || q > 0.0169
  {
    var v := HorizontalRadiusSquared(p);
    SqrtAbove(sqrt, v, PUSH_OUT_RADIUS);
    var x, z := p.x * 1.3, p.z * 1.3;
    assert x * x == 1.69 * (p.x * p.x);
    assert z * z == 1.69 * (p.z * p.z);
  }

  /** The `items` builder: card `i` gets id `i`, the mystery texture
      `i mod 5`, its scatter position and its pushed-out tree position. The
      two position lists stand for the `getTreePos` / `getScatterPos` draws. */
  method BuildItems(sqrt: real -> real, treeDraws: seq<Vec3>, scatterDraws: seq<Vec3>) returns (items: seq<Item>)
    requires |treeDraws| == CARD_COUNT && |scatterDraws| == CARD_COUNT
    ensures |items| == CARD_COUNT
    ensures forall i :: 0 <= i < CARD_COUNT ==>
      items[i] == Item(i, MYSTERY_TEXTURES[i % |MYSTERY_TEXTURES|], scatterDraws[i], PushOut(sqrt, treeDraws[i]))
  {
    items := [];
    var i := 0;
    while i < CARD_COUNT
      invariant 0 <= i <= CARD_COUNT && |items| == i
      invariant forall j :: 0 <= j < i ==>
        items[j] == Item(j, MYSTERY_TEXTURES[j % |MYSTERY_TEXTURES|], scatterDraws[j], PushOut(sqrt, treeDraws[j]))
    {
      var tPos := treeDraws[i];
      assert tPos.x * tPos.x + tPos.z * tPos.z == HorizontalRadiusSquared(tPos);
      var r := sqrt(tPos.x * tPos.x + tPos.z * tPos.z);
      if r > PUSH_OUT_RADIUS {
        tPos := tPos.(x := tPos.x * PUSH_OUT_FACTOR);
        tPos := tPos.(z := tPos.z * PUSH_OUT_FACTOR);
      }
      items := items + [Item(i, MYSTERY_TEXTURES[i % |MYSTERY_TEXTURES|], scatterDraws[i], tPos)];
      i := i + 1;
    }
  }

  ghost predicate IdsAreIndices(items: seq<Item>)
  {
    forall i :: 0 <= i < |items| ==> items[i].id == i
  }

  // ---------------------------------------------------------------------------
  // What one card shows

  predicate IsActive(isPinching: bool, activeRef: int, index: int)
  {
    isPinching && activeRef == index
  }

  datatype CardView = CardView(active: bool, texture: CardTexture, mainText: string, subText: string)

  /** The card's look: `isActive`, `currentTexture`, `mainText`, `subText`. */
  function ViewOf(isPinching: bool, activeRef: int, revealedGift: Option<GiftItem>, item: Item): CardView
  {
    var active := IsActive(isPinching, activeRef, item.id);
    CardView(
      active,
      if active && revealedGift.Some? then revealedGift.value.texture else item.mysteryTex,
      if active && revealedGift.Some? then revealedGift.value.name else "",
      if active then CONGRATULATIONS else "")
  }

  /** The three looks a card can have: an inactive card is its blank mystery
      card; the active card shows the congratulation line, and the gift's
      texture and name only once a gift is revealed. */
  lemma CardViewCases(isPinching: bool, activeRef: int, revealedGift: Option<GiftItem>, item: Item)
    ensures var v := ViewOf(isPinching, activeRef, revealedGift, item);
      && (v.active <==> isPinching && activeRef == item.id)
      && (!v.active ==> v == CardView(false, item.mysteryTex, "", ""))
      && (v.active && revealedGift.None? ==> v == CardView(true, item.mysteryTex, "", CONGRATULATIONS))
      && (v.active && revealedGift.Some? ==>
            v == CardView(true, revealedGift.value.texture, revealedGift.value.name, CONGRATULATIONS))
      && (v.mainText != "" ==> v.subText != "")
  {}

  /** Indices of the cards that are active. */
  function ActiveCards(isPinching: bool, activeRef: int, revealedGift: Option<GiftItem>, items: seq<Item>): set<nat>
  {
    set i: nat | i < |items| && ViewOf(isPinching, activeRef, revealedGift, items[i]).active
  }

  /** At most one card is active, and one is exactly when a pinch holds a card. */
  lemma AtMostOneCardActive(isPinching: bool, activeRef: int, revealedGift: Option<GiftItem>, items: seq<Item>)
    requires IdsAreIndices(items)
    ensures |ActiveCards(isPinching, activeRef, revealedGift, items)| <= 1
    ensures |ActiveCards(isPinching, activeRef, revealedGift, items)| == 1 <==>
      isPinching && 0 <= activeRef < |items|
  {
    var active := ActiveCards(isPinching, activeRef, revealedGift, items);
    if isPinching && 0 <= activeRef < |items| {
      assert active == {activeRef as nat};
    } else {
      assert active == {};
    }
  }

  // ---------------------------------------------------------------------------
  // The gallery component

  class ImageGallery {
    const items: seq<Item>
    /** `activeRef.current`: the chosen card's id, or -1 when none is chosen. */
    var activeRef: int
    var revealedGift: Option<GiftItem>
    /** A scheduled clear of `revealedGift` (the release timer) is pending. */
    var clearPending: bool

    ghost predicate Valid()
      reads this
    {
      |items| == CARD_COUNT && IdsAreIndices(items) && -1 <= activeRef < |items|
    }

    constructor (sqrt: real -> real, treeDraws: seq<Vec3>, scatterDraws: seq<Vec3>)
      requires |treeDraws| == CARD_COUNT && |scatterDraws| == CARD_COUNT
      ensures Valid()
      ensures forall i :: 0 <= i < CARD_COUNT ==>
        items[i] == Item(i, MYSTERY_TEXTURES[i % |MYSTERY_TEXTURES|], scatterDraws[i], PushOut(sqrt, treeDraws[i]))
      ensures activeRef == -1 && revealedGift == None && !clearPending
    {
      var built := BuildItems(sqrt, treeDraws, scatterDraws);
      items := built;
      activeRef := -1;
      revealedGift := None;
      clearPending := false;
    }

    /** The pinch effect, run when `isPinching` changes. `cardDraw` and
        `giftDraw` are the two `Math.random()` values it may consume. The
        cleanup of the previous run cancels a pending clear first. */
    method OnPinchChange(isPinching: bool, cardDraw: real, giftDraw: real)
      requires Valid() && 0.0 <= cardDraw < 1.0
      modifies this
      ensures Valid()
      ensures isPinching && old(activeRef) == -1 ==>
        && activeRef == (cardDraw * CARD_COUNT as real).Floor
        && 0 <= activeRef < CARD_COUNT
        && revealedGift == Some(GIFT_REGISTRY[DrawIndex(GIFT_REGISTRY, giftDraw * TotalWeight(GIFT_REGISTRY) as real)])
        && !clearPending
      ensures isPinching && old(activeRef) != -1 ==>
        activeRef == old(activeRef) && revealedGift == old(revealedGift) && !clearPending
      ensures !isPinching ==> activeRef == -1 && revealedGift == old(revealedGift) && clearPending
    {
      clearPending := false;
      if isPinching {
        if activeRef == -1 && |items| > 0 {
          var randomIdx := (cardDraw * |items| as real).Floor;
          activeRef := items[randomIdx].id;
          var gift := GetRandomGift(giftDraw);
          revealedGift := Some(gift);
        }
      } else {
        activeRef := -1;
        clearPending := true;
      }
    }

    /** The release timer fires: a still-pending clear resets the revealed gift. */
    method ClearTimerFires()
      requires Valid()
      modifies this
      ensures Valid()
      ensures old(clearPending) ==> revealedGift == None && !clearPending
      ensures !old(clearPending) ==> revealedGift == old(revealedGift) && !clearPending
      ensures activeRef == old(activeRef)
    {
      if clearPending {
        revealedGift := None;
        clearPending := false;
      }
    }
  }
}
