/** The photo carousel (src/components/PhotoGallery.js): an index that
    wraps around the six photos, moved by arrows, dots and a 4-second
    autoplay step that a manual move pauses for 8 seconds. */
module PhotoGallery {
  import opened Common

  const PhotoCount: nat := 6

  /** `(i + 1) % n`. */
  function NextIndex(i: nat, n: nat): (r: nat)
    requires i < n
    ensures r < n
    ensures i < n - 1 ==> r == i + 1
    ensures i == n - 1 ==> r == 0
  {
    (i + 1) % n
  }

  /** `i === 0 ? n - 1 : i - 1`. */
  function PrevIndex(i: nat, n: nat): (r: nat)
    requires i < n
    ensures r < n
  {
    if i == 0 then n - 1 else i - 1
  }

  /** The two arrows undo each other from every photo. */
  lemma NextPrevInverse(i: nat, n: nat)
    requires i < n
    ensures PrevIndex(NextIndex(i, n), n) == i
    ensures NextIndex(PrevIndex(i, n), n) == i
  {
  }

  /** `k` steps of "next". */
  function Advance(i: nat, n: nat, k: nat): (r: nat)
    requires i < n
    ensures r < n
  {
    if k == 0 then i else NextIndex(Advance(i, n, k - 1), n)
  }

  lemma ModSucc(m: nat, n: nat)
    requires n > 0
    ensures (m + 1) % n == if m % n == n - 1 then 0 else m % n + 1
  {
    var q, r := m / n, m % n;
    DivBounds(m, n);
    assert m == n * q + r;
    if r == n - 1 {
      assert m + 1 == n * (q + 1) + 0;
      DivModUnique(m + 1, n, q + 1, 0);
    } else {
      DivModUnique(m + 1, n, q, r + 1);
    }
  }

  /** k steps of "next" land on (i + k) mod n: after n steps the carousel is
      back where it started, and every photo is reached from every photo. */
  lemma {:induction false} AdvanceIsModular(i: nat, n: nat, k: nat)
    requires i < n
    ensures Advance(i, n, k) == (i + k) % n
  {
    if k == 0 {
      DivModUnique(i, n, 0, i);
    } else {
      AdvanceIsModular(i, n, k - 1);
      ModSucc(i + k - 1, n);
    }
  }

  /** A dot is active exactly for the photo shown. */
  function ActiveDots(current: nat): (ds: seq<bool>)
    ensures |ds| == PhotoCount
    ensures forall i :: 0 <= i < PhotoCount ==> (ds[i] <==> i == current)
  {
    seq(PhotoCount, i => i == current)
  }

  class Gallery {
    var currentIndex: nat
    var isPaused: bool

    ghost predicate Valid()
      reads this
    {
      currentIndex < PhotoCount
    }

    constructor ()
      ensures Valid() && currentIndex == 0 && !isPaused
    {
      currentIndex := 0;
      isPaused := false;
    }

    /** The autoplay interval fires; it only runs while not paused. */
    method AutoStep()
      requires Valid() && !isPaused
      modifies this
      ensures Valid()
      ensures currentIndex == NextIndex(old(currentIndex), PhotoCount) && !isPaused
    {
      currentIndex := NextIndex(currentIndex, PhotoCount);
    }

    /** `nextSlide`: one photo on, autoplay paused. */
    method Next()
      requires Valid()
      modifies this
      ensures Valid()
      ensures currentIndex == NextIndex(old(currentIndex), PhotoCount) && isPaused
    {
      currentIndex := NextIndex(currentIndex, PhotoCount);
      isPaused := true;
    }

    /** `prevSlide`: one photo back, autoplay paused. */
    method Prev()
      requires Valid()
      modifies this
      ensures Valid()
      ensures currentIndex == PrevIndex(old(currentIndex), PhotoCount) && isPaused
    {
      currentIndex := PrevIndex(currentIndex, PhotoCount);
      isPaused := true;
    }

    /** `goToSlide` from a dot. */
    method GoTo(index: nat)
      requires Valid() && index < PhotoCount
      modifies this
      ensures Valid()
      ensures currentIndex == index && isPaused
    {
      currentIndex := index;
      isPaused := true;
    }

    /** One of the 8-second resume timers fires. */
    method Resume()
      requires Valid()
      modifies this
      ensures Valid()
      ensures currentIndex == old(currentIndex) && !isPaused
    {
      isPaused := false;
    }
  }
}
