/** The home page's hero, src/components/sections/HeroSection.tsx: four
    background images cycled by a five-second interval, shown one at a time,
    and a flag per image set when its preload finishes. The timer and the
    image loads are the events that drive the methods. */
module Hero {

  /** The number of background images. */
  const BackgroundCount: nat := 4

  /** The interval's update, `(prevIndex + 1) % backgrounds.length`. */
  function Tick(i: int): (j: int)
    ensures 0 <= j < BackgroundCount
    ensures 0 <= i < BackgroundCount - 1 ==> j == i + 1
    ensures i == BackgroundCount - 1 ==> j == 0
  {
    (i + 1) % BackgroundCount
  }

  /** n firings of the interval. */
  function Ticks(i: int, n: nat): int {
    if n == 0 then i else Tick(Ticks(i, n - 1))
  }

  /** n firings, short of the last background, move n places. */
  lemma {:induction false} TicksStraight(i: int, n: nat)
    requires 0 <= i && i + n < BackgroundCount
    ensures Ticks(i, n) == i + n
  {
    if n > 0 {
      TicksStraight(i, n - 1);
    }
  }

  lemma {:induction false} TicksCompose(i: int, a: nat, b: nat)
    ensures Ticks(i, a + b) == Ticks(Ticks(i, a), b)
  {
    if b > 0 {
      TicksCompose(i, a, b - 1);
    }
  }

  /** After one firing per background the same background shows again, and
      every firing in between keeps the index in range. */
  lemma FullCycle(i: int, n: nat)
    requires 0 <= i < BackgroundCount
    ensures 0 <= Ticks(i, n) < BackgroundCount
    ensures Ticks(i, BackgroundCount) == i
  {
    if n > 0 {
      assert Ticks(i, n) == Tick(Ticks(i, n - 1));
    }
    var k := BackgroundCount - 1 - i;
    TicksStraight(i, k);
    TicksCompose(i, k, 1);
    TicksStraight(0, i);
    TicksCompose(i, k + 1, i);
  }

  /** The style of background `index`. */
  function Opacity(index: int, current: int): (o: int)
    ensures o == 0 || o == 1
    ensures o == 1 <==> index == current
  {
    if current == index then 1 else 0
  }

  /** Exactly one background is visible: the current one. */
  lemma ExactlyOneVisible(current: int)
    requires 0 <= current < BackgroundCount
    ensures (set j | 0 <= j < BackgroundCount && Opacity(j, current) == 1) == {current}
  {
    var visible := set j | 0 <= j < BackgroundCount && Opacity(j, current) == 1;
    assert current in visible;
    forall j | j in visible ensures j == current {
    }
  }

  class Carousel {
    var currentBgIndex: int
    var imagesLoaded: seq<bool>

    ghost predicate Valid()
      reads this
    {
      0 <= currentBgIndex < BackgroundCount && |imagesLoaded| == BackgroundCount
    }

    /** The first render: the first background, nothing loaded yet. */
    constructor ()
      ensures Valid()
      ensures currentBgIndex == 0
      ensures imagesLoaded == seq(BackgroundCount, _ => false)
    {
      currentBgIndex := 0;
      imagesLoaded := seq(BackgroundCount, _ => false);
    }

    /** One firing of the interval. */
    method OnInterval()
      requires Valid()
      modifies this
      ensures Valid()
      ensures currentBgIndex == Tick(old(currentBgIndex))
      ensures imagesLoaded == old(imagesLoaded)
    {
      currentBgIndex := Tick(currentBgIndex);
    }

    /** The preload of background `index` finished: only its flag is set. */
    method OnLoad(index: nat)
      requires Valid() && index < BackgroundCount
      modifies this
      ensures Valid()
      ensures |imagesLoaded| == |old(imagesLoaded)|
      ensures imagesLoaded[index]
      ensures forall j :: 0 <= j < |imagesLoaded| && j != index ==> imagesLoaded[j] == old(imagesLoaded)[j]
      ensures currentBgIndex == old(currentBgIndex)
    {
      var newState := imagesLoaded;
      newState := newState[index := true];
      imagesLoaded := newState;
    }
  }

  /** Whatever order the four preloads finish in, all four flags end up set. */
  method LoadAll(order: seq<nat>) returns (loaded: seq<bool>)
    requires |order| == BackgroundCount
    requires forall k :: 0 <= k < BackgroundCount ==> k in order
    requires forall j :: 0 <= j < |order| ==> order[j] < BackgroundCount
    ensures |loaded| == BackgroundCount
    ensures forall k :: 0 <= k < BackgroundCount ==> loaded[k]
  {
    var hero := new Carousel();
    var n := 0;
    while n < |order|
      invariant 0 <= n <= |order|
      invariant hero.Valid()
      invariant forall j :: 0 <= j < n ==> hero.imagesLoaded[order[j]]
    {
      hero.OnLoad(order[n]);
      n := n + 1;
    }
    loaded := hero.imagesLoaded;
    forall k | 0 <= k < BackgroundCount ensures loaded[k] {
      assert k in order;
      var j :| 0 <= j < |order| && order[j] == k;
    }
  }
}
