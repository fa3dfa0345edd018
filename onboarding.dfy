/**
  `OnboardingViewModel`: a page counter over the three onboarding pages, and the flag that
  records that onboarding is over. `@Published`, `@AppStorage` and `withAnimation` only
  publish, persist and animate these two stored properties, so they are plain fields here.
 */
module Onboarding {

  /** One onboarding page: its two icon asset names and the localization keys of its texts. */
  datatype Page = Page(lightIcon: string, darkIcon: string, title: string, subtitle: string)

  /** The pages, in the order they are shown. */
  function Pages(): (r: seq<Page>)
    ensures |r| == 3
  {
    [
      Page("Train", "Train Dark", "onboarding.title1", "onboarding.subtitle1"),
      Page("phone", "Phone Dark", "onboarding.title2", "onboarding.subtitle2"),
      Page("Map", "Map Dark", "onboarding.title3", "onboarding.subtitle3")
    ]
  }

  /** The stored properties of the view model. */
  datatype State = State(currentPage: int, finished: bool)

  /** The state a fresh view model starts in. */
  const Start := State(0, false)

  /** `currentPage` names a page. */
  predicate OnAPage(s: State) {
    0 <= s.currentPage < |Pages()|
  }

  /**
    `next()`: before the last page, move exactly one page on without finishing; on the
    last page, finish and stay there. Either way a page stays a page.
   */
  function NextState(s: State): (r: State)
    ensures OnAPage(s) ==> OnAPage(r)
    ensures s.currentPage < |Pages()| - 1 ==> r.currentPage == s.currentPage + 1 && r.finished == s.finished
    ensures s.currentPage >= |Pages()| - 1 ==> r.currentPage == s.currentPage && r.finished
  {
    if s.currentPage < |Pages()| - 1 then s.(currentPage := s.currentPage + 1)
    else s.(finished := true)
  }

  /** `skip()`: finish, and never move the page. */
  function SkipState(s: State): (r: State)
    ensures r.finished && r.currentPage == s.currentPage
  {
    s.(finished := true)
  }

  /** `next()` called `n` times. */
  function NextTimes(s: State, n: nat): State
    decreases n
  {
    if n == 0 then s else NextTimes(NextState(s), n - 1)
  }

  /** However many times `next()` is called from the start, the page stays a page. */
  lemma {:induction false} NextKeepsPage(s: State, n: nat)
    requires OnAPage(s)
    ensures OnAPage(NextTimes(s, n))
    decreases n
  {
    if n > 0 {
      NextKeepsPage(NextState(s), n - 1);
    }
  }

  /** Once finished, further `next()` calls leave it finished. */
  lemma {:induction false} FinishedStays(s: State, n: nat)
    requires s.finished
    ensures NextTimes(s, n).finished
    decreases n
  {
    if n > 0 {
      FinishedStays(NextState(s), n - 1);
    }
  }

  /**
    From page `p`, the onboarding finishes after exactly `3 - p` calls to `next()`: not
    before, and for good from then on. From the start that is three calls.
   */
  lemma {:induction false} NextFinishesAfter(s: State, n: nat)
    requires OnAPage(s) && !s.finished
    ensures NextTimes(s, n).finished <==> n >= |Pages()| - s.currentPage
    decreases n
  {
    if n > 0 {
      if NextState(s).finished {
        FinishedStays(NextState(s), n - 1);
      } else {
        NextFinishesAfter(NextState(s), n - 1);
      }
    }
  }

  /** From a fresh view model, three calls to `next()` finish the onboarding and two do not. */
  lemma ThreeNextsFromStart()
    ensures NextTimes(Start, 3).finished
    ensures !NextTimes(Start, 2).finished
  {
    NextFinishesAfter(Start, 3);
    NextFinishesAfter(Start, 2);
  }

  class OnboardingViewModel {
    var currentPage: int
    var isOnboardingFinished: bool
    const pages: seq<Page>

    /** The stored properties as one value. */
    function Snapshot(): State
      reads this
    {
      State(currentPage, isOnboardingFinished)
    }

    /** `currentPage` names one of `pages`, which are the onboarding pages. */
    predicate Valid()
      reads this
    {
      pages == Pages() && 0 <= currentPage < |pages|
    }

    constructor ()
      ensures Valid()
      ensures Snapshot() == Start
    {
      currentPage := 0;
      isOnboardingFinished := false;
      pages := Pages();
    }

    /** `next()`. */
    method Next()
      requires Valid()
      modifies this
      ensures Valid()
      ensures Snapshot() == NextState(old(Snapshot()))
    {
      if currentPage < |pages| - 1 {
        currentPage := currentPage + 1;
      } else {
        isOnboardingFinished := true;
      }
    }

    /** `skip()`. */
    method Skip()
      requires Valid()
      modifies this
      ensures Valid()
      ensures Snapshot() == SkipState(old(Snapshot()))
    {
      isOnboardingFinished := true;
    }
  }
}
