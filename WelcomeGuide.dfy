/** The first-visit guide (src/components/WelcomeGuide.js): six slides, a
    cursor moved by next / back / the progress dots, and finishing or
    skipping, both of which record completion. */
module WelcomeGuide {
  import opened Common
  import opened Storage

  const SlideCount: nat := 6

  const CompletedKey: string := "welcomeGuideCompleted"

  /** Where "next" leads from slide `c`: the following slide, or None on
      the last slide, where it finishes instead. */
  function NextSlide(c: nat): (r: Option<nat>)
    requires c < SlideCount
    ensures r.None? <==> c == SlideCount - 1
    ensures r.Some? ==> r.value == c + 1 && r.value < SlideCount
  {
    if c < SlideCount - 1 then Some(c + 1) else None
  }

  /** Where "back" leads from slide `c`; the first slide stays put. */
  function PrevSlide(c: nat): (r: nat)
    requires c < SlideCount
    ensures r < SlideCount
    ensures c > 0 ==> r == c - 1
    ensures c == 0 ==> r == 0
  {
    if c > 0 then c - 1 else c
  }

  /** "Back" undoes "next" on every slide but the last, and "next" undoes
      "back" on every slide but the first. */
  lemma NextPrevInverse(c: nat)
    requires c < SlideCount
    ensures c < SlideCount - 1 ==> PrevSlide(NextSlide(c).value) == c
    ensures c > 0 ==> NextSlide(PrevSlide(c)) == Some(c)
  {
  }

  /** A progress dot's two classes. */
  datatype Dot = Dot(active: bool, completed: bool)

  function Dots(current: nat): (ds: seq<Dot>)
    ensures |ds| == SlideCount
    ensures forall i :: 0 <= i < SlideCount ==> (ds[i].active <==> i == current)
    ensures forall i :: 0 <= i < SlideCount ==> (ds[i].completed <==> i < current)
  {
    seq(SlideCount, i => Dot(i == current, i < current))
  }

  /** On any slide exactly one dot is active, the dots before it are the
      completed ones, and no dot is both. */
  lemma OneActiveDot(current: nat)
    requires current < SlideCount
    ensures (set i | 0 <= i < SlideCount && Dots(current)[i].active) == {current}
    ensures forall i :: 0 <= i < SlideCount ==> !(Dots(current)[i].active && Dots(current)[i].completed)
  {
    var ds := Dots(current);
    assert ds[current].active;
  }

  /** "Крок k з 6". */
  function StepText(current: nat): string {
    "Крок " + NatToDecimal(current + 1) + " з " + NatToDecimal(SlideCount)
  }

  /** The next button's caption. */
  function NextLabel(current: nat): (s: string)
    ensures s == "Розпочати! \U{1F680}" <==> current == SlideCount - 1
  {
    if current == SlideCount - 1 then "Розпочати! \U{1F680}" else "Далі →"
  }

  class Guide {
    const storage: LocalStorage
    var currentSlide: nat
    var closed: bool

    ghost predicate Valid()
      reads this
    {
      currentSlide < SlideCount
    }

    constructor (storage: LocalStorage)
      ensures Valid() && this.storage == storage
      ensures currentSlide == 0 && !closed
    {
      this.storage := storage;
      currentSlide := 0;
      closed := false;
    }

    /** `handleFinish` and `handleSkip`: completion is recorded and the
        guide closes. */
    method Finish()
      requires Valid()
      modifies this, storage
      ensures Valid() && closed && currentSlide == old(currentSlide)
      ensures storage.items == old(storage.items)[CompletedKey := Text("true")]
    {
      storage.SetItem(CompletedKey, Text("true"));
      closed := true;
    }

    /** `handleNext`. */
    method Next()
      requires Valid()
      modifies this, storage
      ensures Valid()
      ensures NextSlide(old(currentSlide)).Some? ==>
                currentSlide == NextSlide(old(currentSlide)).value
                && closed == old(closed) && storage.items == old(storage.items)
      ensures NextSlide(old(currentSlide)).None? ==>
                currentSlide == old(currentSlide) && closed
                && storage.items == old(storage.items)[CompletedKey := Text("true")]
    {
      var next := NextSlide(currentSlide);
      if next.Some? {
        currentSlide := next.value;
      } else {
        Finish();
      }
    }

    /** `handlePrev`. */
    method Prev()
      requires Valid()
      modifies this
      ensures Valid()
      ensures currentSlide == PrevSlide(old(currentSlide)) && closed == old(closed)
    {
      currentSlide := PrevSlide(currentSlide);
    }

    /** A progress dot. */
    method GoTo(index: nat)
      requires Valid() && index < SlideCount
      modifies this
      ensures Valid()
      ensures currentSlide == index && closed == old(closed)
    {
      currentSlide := index;
    }
  }
}
