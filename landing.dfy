/** The landing page's hero rotator (src/App.tsx): featured items shown over a
    background made of two stacked image layers. A change writes the new image
    into the hidden layer and swaps which layer is visible, so the old image
    fades out while the new one fades in; a flag blocks a second change until
    the 600 ms fade is over, and a 5 s timer advances to the next item. Timers
    are modelled as the methods they finally call. */
module Landing {
  import Stars

  /** A featured item of the hero data, with the two fields the rotator uses. */
  datatype Hero = Hero(heroImage: string, rating: real)

  /** `keys.indexOf(k)`: the position of the first occurrence of `k`, -1 if
      there is none. */
  function IndexOf(keys: seq<string>, k: string): (i: int)
    ensures -1 <= i < |keys|
    ensures i >= 0 ==> keys[i] == k && forall j :: 0 <= j < i ==> keys[j] != k
    ensures i == -1 <==> k !in keys
  {
    if keys == [] then -1
    else if keys[0] == k then 0
    else var rest := IndexOf(keys[1..], k); if rest == -1 then -1 else rest + 1
  }

  /** The position the auto-rotate timer moves to from position `i`, which
      is a position or `indexOf`'s -1 (from there JavaScript's truncating `%`
      and the Euclidean one agree). */
  function NextPosition(i: int, count: nat): (j: int)
    requires count > 0 && i >= -1
    ensures 0 <= j < count
  {
    (i + 1) % count
  }

  /** The position reached from `i` after `steps` timer firings. */
  function Advance(i: int, steps: nat, count: nat): (j: int)
    requires count > 0 && i >= -1
    ensures steps > 0 ==> 0 <= j < count
  {
    if steps == 0 then i else NextPosition(Advance(i, steps - 1, count), count)
  }

  /** One firing moves one position on, from the last back to the first. */
  lemma NextPositionStep(i: int, count: nat)
    requires 0 <= i < count
    ensures NextPosition(i, count) == if i + 1 < count then i + 1 else 0
  {
    if i + 1 == count {
      assert (i + 1) % count == 0;
    }
  }

  /** Within one round of `count` firings the position moves on by the number
      of firings, wrapping once past the last position. */
  lemma {:induction false} AdvanceWithinRound(i: int, steps: nat, count: nat)
    requires 0 <= i < count && steps <= count
    ensures Advance(i, steps, count) == if i + steps < count then i + steps else i + steps - count
  {
    if steps > 0 {
      AdvanceWithinRound(i, steps - 1, count);
      NextPositionStep(Advance(i, steps - 1, count), count);
    }
  }

  /** Rotation is cyclic: from any position, every position is shown within
      `count` firings, and after exactly `count` firings the first item is back. */
  lemma RotationVisitsEveryPosition(i: int, count: nat, target: int)
    requires 0 <= i < count && 0 <= target < count
    ensures exists steps: nat :: steps < count && Advance(i, steps, count) == target
    ensures Advance(i, count, count) == i
  {
    var steps: nat := if target >= i then target - i else target - i + count;
    AdvanceWithinRound(i, steps, count);
    AdvanceWithinRound(i, count, count);
  }

  /** The hero keys, `Object.keys(heroData)`, are the hero data's keys, each once. */
  ghost predicate KeysOf(keys: seq<string>, heroes: map<string, Hero>)
  {
    && (forall k :: k in heroes <==> k in keys)
    && (forall i, j :: 0 <= i < j < |keys| ==> keys[i] != keys[j])
  }

  class HeroRotator {
    const heroes: map<string, Hero>
    const heroKeys: seq<string>
    /** The bundled thumbnail for each hero image file name. */
    const thumbnailMap: map<string, string>

    var activeHeroIndex: string
    var isTransitioning: bool
    var displayedImage: string
    var backgroundImage1: string
    var backgroundImage2: string
    var activeLayer: int

    /** The background URL for a hero: its thumbnail, or "" when none is bundled. */
    function Thumbnail(key: string): (url: string)
      reads this
      requires key in heroes
    {
      var file := heroes[key].heroImage;
      if file in thumbnailMap then thumbnailMap[file] else ""
    }

    /** The image of the layer currently at full opacity. */
    function VisibleImage(): (url: string)
      reads this
    {
      if activeLayer == 1 then backgroundImage1 else backgroundImage2
    }

    /** The rotator's invariant: the content and the background show the same
        hero, one of the data's keys, and the visible layer holds its image. */
    ghost predicate Valid()
      reads this
    {
      && KeysOf(heroKeys, heroes)
      && displayedImage in heroes
      && activeHeroIndex == displayedImage
      && (activeLayer == 1 || activeLayer == 2)
      && VisibleImage() == Thumbnail(displayedImage)
    }

    /** Mount: hero "1" on layer 1, layer 2 empty, no transition running. */
    constructor(heroes: map<string, Hero>, heroKeys: seq<string>, thumbnailMap: map<string, string>)
      requires "1" in heroes && KeysOf(heroKeys, heroes)
      ensures Valid()
      ensures this.heroes == heroes && this.heroKeys == heroKeys && this.thumbnailMap == thumbnailMap
      ensures displayedImage == "1" && activeHeroIndex == "1" && !isTransitioning
      ensures activeLayer == 1 && backgroundImage1 == Thumbnail("1") && backgroundImage2 == ""
    {
      this.heroes := heroes;
      this.heroKeys := heroKeys;
      this.thumbnailMap := thumbnailMap;
      activeHeroIndex := "1";
      isTransitioning := false;
      displayedImage := "1";
      var file := heroes["1"].heroImage;
      backgroundImage1 := if file in thumbnailMap then thumbnailMap[file] else "";
      backgroundImage2 := "";
      activeLayer := 1;
    }

    /** `changeHero(index)`: ignored when `index` is already shown or a fade is
        running; otherwise the new image goes into the hidden layer, the layers
        swap, both indices move to `index` and a fade starts. */
    method ChangeHero(index: string)
      requires Valid() && index in heroes
      modifies this
      ensures Valid()
      ensures index == old(displayedImage) || old(isTransitioning) ==>
                unchanged(this)
      ensures index != old(displayedImage) && !old(isTransitioning) ==>
                && isTransitioning
                && displayedImage == index && activeHeroIndex == index
                && activeLayer == 3 - old(activeLayer)
                && VisibleImage() == Thumbnail(index)
                && (if old(activeLayer) == 1 then backgroundImage1 == old(backgroundImage1)
                    else backgroundImage2 == old(backgroundImage2))
    {
      if index == displayedImage || isTransitioning {
        return;
      }
      isTransitioning := true;
      var file := heroes[index].heroImage;
      var image := if file in thumbnailMap then thumbnailMap[file] else "";
      if activeLayer == 1 {
        backgroundImage2 := image;
      } else {
        backgroundImage1 := image;
      }
      activeLayer := if activeLayer == 1 then 2 else 1;
      activeHeroIndex := index;
      displayedImage := index;
    }

    /** The end of the 600 ms fade: changes are accepted again. */
    method EndTransition()
      requires Valid()
      modifies this`isTransitioning
      ensures Valid() && !isTransitioning
    {
      isTransitioning := false;
    }

    /** The 5 s auto-rotate timer: change to the key after the displayed one,
        wrapping from the last key to the first. */
    method AutoRotate()
      requires Valid()
      modifies this
      ensures Valid()
      ensures var next := heroKeys[NextPosition(IndexOf(heroKeys, old(displayedImage)), |heroKeys|)];
              if next == old(displayedImage) || old(isTransitioning) then unchanged(this)
              else
                && isTransitioning
                && displayedImage == next && activeHeroIndex == next
                && activeLayer == 3 - old(activeLayer)
                && VisibleImage() == Thumbnail(next)
                && (if old(activeLayer) == 1 then backgroundImage1 == old(backgroundImage1)
                    else backgroundImage2 == old(backgroundImage2))
    {
      var currentIndex := IndexOf(heroKeys, displayedImage);
      var nextIndex := (currentIndex + 1) % |heroKeys|;
      ChangeHero(heroKeys[nextIndex]);
    }

    /** Whether star `index` of the active hero's rating is drawn filled. */
    function HeroStarFilled(index: int): (filled: bool)
      reads this
      requires Valid()
      ensures var rating := heroes[activeHeroIndex].rating;
              filled <==> index < rating.Floor || (index == rating.Floor && Stars.JsFraction(rating) >= 0.25)
    {
      Stars.StarFilled(heroes[activeHeroIndex].rating, index)
    }
  }
}
