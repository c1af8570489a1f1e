/** The chapter reader (src/pages/ComicDetail.tsx): the panels of one chapter
    shown either as a scrolling list or one at a time with Previous/Next
    buttons. The panels arrive from the content store after mount. */
module ComicDetail {
  import opened Optional
  import opened Database

  datatype ViewMode = List | Page

  const NoPanelsFound := "No panels found for this chapter"

  /** The Previous button's update, `Math.max(0, i - 1)`: one back, but
      never below the first panel. */
  function PreviousIndex(i: int): (j: int)
    ensures j >= 0 && j >= i - 1
    ensures j == 0 || j == i - 1
  {
    if i - 1 >= 0 then i - 1 else 0
  }

  /** The Next button's update, `Math.min(count - 1, i + 1)`: one on, but
      never past the last panel. */
  function NextIndex(count: int, i: int): (j: int)
    ensures j <= count - 1 && j <= i + 1
    ensures j == count - 1 || j == i + 1
  {
    if count - 1 <= i + 1 then count - 1 else i + 1
  }

  /** For a non-empty chapter and an index on a panel: both buttons keep the
      index on a panel; each moves it by one unless at its own end, where it
      stays put. */
  lemma PagerStaysOnAPanel(count: int, i: int)
    requires 1 <= count && 0 <= i < count
    ensures 0 <= PreviousIndex(i) < count && 0 <= NextIndex(count, i) < count
    ensures PreviousIndex(i) == if i == 0 then 0 else i - 1
    ensures NextIndex(count, i) == if i == count - 1 then count - 1 else i + 1
  {
  }


  class ComicReader {
    var panels: seq<Panel>
    var viewMode: ViewMode
    var currentPanelIndex: int
    var loading: bool
    var error: Option<string>

    /** The index never goes below 0 (it can run past the end when a shorter
        chapter replaces the panels, since a fetch does not reset it). */
    ghost predicate Valid()
      reads this
    {
      currentPanelIndex >= 0
    }

    /** Mount: no panels, list view, index 0, loading. */
    constructor()
      ensures Valid()
      ensures panels == [] && viewMode == List && currentPanelIndex == 0
      ensures loading && error == None
    {
      panels := [];
      viewMode := List;
      currentPanelIndex := 0;
      loading := true;
      error := None;
    }

    /** The fetch effect. `hasParams` is whether both route parameters are
        present; only then is there a result `data` to handle. The index is left
        as it is. */
    method ReceivePanels(hasParams: bool, data: Option<seq<Panel>>)
      requires Valid()
      modifies this
      ensures Valid()
      ensures !loading && viewMode == old(viewMode) && currentPanelIndex == old(currentPanelIndex)
      ensures !hasParams ==> panels == old(panels) && error == None
      ensures hasParams && data.Some? && |data.value| > 0 ==> panels == data.value && error == None
      ensures hasParams && !(data.Some? && |data.value| > 0) ==>
                panels == old(panels) && error == Some(NoPanelsFound)
    {
      loading := true;
      error := None;
      if hasParams {
        if data.Some? && |data.value| > 0 {
          panels := data.value;
        } else {
          error := Some(NoPanelsFound);
        }
      }
      loading := false;
    }

    /** The List View / Page View buttons: only the mode changes. */
    method SetViewMode(mode: ViewMode)
      requires Valid()
      modifies this`viewMode
      ensures Valid() && viewMode == mode
    {
      viewMode := mode;
    }

    /** Previous; its buttons exist only in page view with some panels. */
    method Previous()
      requires Valid() && viewMode == Page && |panels| > 0
      modifies this`currentPanelIndex
      ensures Valid() && currentPanelIndex == PreviousIndex(old(currentPanelIndex))
    {
      currentPanelIndex := if currentPanelIndex - 1 >= 0 then currentPanelIndex - 1 else 0;
    }

    /** Next; its buttons exist only in page view with some panels. */
    method Next()
      requires Valid() && viewMode == Page && |panels| > 0
      modifies this`currentPanelIndex
      ensures Valid() && currentPanelIndex == NextIndex(|panels|, old(currentPanelIndex))
    {
      currentPanelIndex := if |panels| - 1 <= currentPanelIndex + 1 then |panels| - 1 else currentPanelIndex + 1;
    }

    /** Previous is greyed out exactly when the index is 0, where pressing it
        would change nothing. */
    function PreviousDisabled(): (disabled: bool)
      reads this
      requires Valid()
      ensures disabled <==> PreviousIndex(currentPanelIndex) == currentPanelIndex
    {
      currentPanelIndex == 0
    }

    /** Next is greyed out exactly on the last panel, where pressing it would
        change nothing (past the end of a shorter chapter it stays enabled and
        pulls the index back). */
    function NextDisabled(): (disabled: bool)
      reads this
      requires Valid()
      ensures disabled <==> NextIndex(|panels|, currentPanelIndex) == currentPanelIndex
    {
      currentPanelIndex == |panels| - 1
    }

    /** The image URLs on screen, in order: every panel in list view; in page
        view the current panel, or nothing for an empty chapter. (An index
        past the end, after a shorter chapter arrived, names no panel; the page
        would then fail to render, which the model shows as no image.) */
    function RenderedImages(): (images: seq<string>)
      reads this
      requires Valid()
      ensures viewMode == List ==> images == Images(panels)
      ensures viewMode == Page && |panels| == 0 ==> images == []
      ensures viewMode == Page && currentPanelIndex < |panels| ==> images == [panels[currentPanelIndex].image]
    {
      if viewMode == List then Images(panels)
      else if currentPanelIndex < |panels| then [panels[currentPanelIndex].image]
      else []
    }
  }

  /** A chapter with no panels shows no image in either mode; `error` is set
      to `NoPanelsFound`, which the page never displays. */
  method EmptyChapterScenario(data: Option<seq<Panel>>)
    requires data == None || data == Some([])
  {
    var reader := new ComicReader();
    reader.ReceivePanels(true, data);
    assert reader.error == Some(NoPanelsFound);
    assert reader.RenderedImages() == [];
    reader.SetViewMode(Page);
    assert reader.RenderedImages() == [];
  }

  /** Paging through a three-panel chapter: Next twice reaches the last panel
      and a third Next stays there; Previous walks back and stops at 0. */
  method PagingScenario(a: string, b: string, c: string)
  {
    var reader := new ComicReader();
    reader.ReceivePanels(true, Some([Panel(a), Panel(b), Panel(c)]));
    reader.SetViewMode(Page);
    reader.Next();
    reader.Next();
    assert reader.RenderedImages() == [c] && reader.NextDisabled();
    reader.Next();
    assert reader.currentPanelIndex == 2;
    reader.Previous();
    reader.Previous();
    reader.Previous();
    assert reader.currentPanelIndex == 0 && reader.PreviousDisabled();
    reader.SetViewMode(List);
    assert reader.RenderedImages() == [a, b, c];
  }
}
