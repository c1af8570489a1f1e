/** The content store's data logic (src/hooks/database.ts): the comic records
    and their comment collections, the normalisation of a record's chapter data
    into an ordered panel list, the running-average rating update done when a
    comment is saved, and the blind like-count overwrite. The remote document
    database itself is modelled as two maps; whether a remote call fails is a
    parameter of the operation. */
module Database {
  import opened Optional

  /** One panel of a chapter: the URL of its image. */
  datatype Panel = Panel(image: string)

  /** The value found under one chapter number of a keyed chapter map: a list
      of image URLs, or something that is not an array. */
  datatype ChapterEntry = ImageList(urls: seq<string>) | NotAList

  /** The `chapter` field of a comic record, in the shapes the store holds:
      absent (or another falsy value), a keyed map from chapter number to its
      entry, the legacy flat array of URLs, or some other truthy scalar such as
      a number or a boolean. */
  datatype ChapterField =
    | NoChapter
    | Keyed(chapters: map<int, ChapterEntry>)
    | Flat(urls: seq<string>)
    | Unrecognized

  /** The fields of a comic record that the modelled logic reads or writes.
      `rating`, `ratingCount` and `likes` may be missing from a record. */
  datatype Comic = Comic(
    rating: Option<real>,
    ratingCount: Option<nat>,
    likes: Option<int>,
    chapter: ChapterField)

  /** A comment as the page builds it: text, author, a 1-5 rating and the
      client's time of posting. */
  datatype CommentData = CommentData(text: string, author: string, rating: int, timestamp: int)

  /** Which of saveComment's three remote calls throws, if any. */
  datatype Fault = NoFault | AddFails | ReadFails | UpdateFails

  // ---------------------------------------------------------------------------
  // Chapter normalisation (fetchPanelsByChapter)

  /** `urls.map(url => ({ image: url }))`. */
  function ToPanels(urls: seq<string>): (panels: seq<Panel>)
    ensures |panels| == |urls|
    ensures forall i :: 0 <= i < |urls| ==> panels[i].image == urls[i]
  {
    if urls == [] then [] else [Panel(urls[0])] + ToPanels(urls[1..])
  }

  /** The image URLs of a panel list, in reading order. */
  function Images(panels: seq<Panel>): (urls: seq<string>)
    ensures |urls| == |panels|
    ensures forall i :: 0 <= i < |panels| ==> urls[i] == panels[i].image
  {
    if panels == [] then [] else [panels[0].image] + Images(panels[1..])
  }

  /** Turning URLs into panels loses nothing: the panels' images are the URLs,
      and a panel list is rebuilt from its images. */
  lemma PanelsRoundTrip(urls: seq<string>, panels: seq<Panel>)
    ensures Images(ToPanels(urls)) == urls
    ensures ToPanels(Images(panels)) == panels
  {
    assert Images(ToPanels(urls)) == urls;
    assert forall i :: 0 <= i < |panels| ==> ToPanels(Images(panels))[i] == Panel(panels[i].image);
  }

  /** The panel list a comic's chapter data yields for `chapterNumber`, or None
      (the source's `null`). Keyed chapter data yields panels exactly when the entry for the chapter
      number exists and is an array, and then one panel per URL of that
      entry, in order; legacy flat data yields one panel per URL of the whole
      array; missing data and data of no recognised shape yield null. */
  function ChapterPanels(chapter: ChapterField, chapterNumber: int): (panels: Option<seq<Panel>>)
    ensures panels.Some? <==>
              || chapter.Flat?
              || (chapter.Keyed? && chapterNumber in chapter.chapters && chapter.chapters[chapterNumber].ImageList?)
    ensures chapter.Flat? ==> Images(panels.value) == chapter.urls
    ensures chapter.Keyed? && panels.Some? ==> Images(panels.value) == chapter.chapters[chapterNumber].urls
  {
    match chapter
    case NoChapter => None
    case Keyed(chapters) =>
      if chapterNumber in chapters && chapters[chapterNumber].ImageList?
      then PanelsRoundTrip(chapters[chapterNumber].urls, []); Some(ToPanels(chapters[chapterNumber].urls))
      else None
    case Flat(urls) => PanelsRoundTrip(urls, []); Some(ToPanels(urls))
    case Unrecognized => None
  }

  /** Legacy flat data does not depend on the chapter number asked for. */
  lemma FlatChapterPanels(urls: seq<string>, chapterNumber: int, otherNumber: int)
    ensures ChapterPanels(Flat(urls), chapterNumber) == ChapterPanels(Flat(urls), otherNumber)
  {
  }

  // ---------------------------------------------------------------------------
  // Rating arithmetic (saveComment)

  /** The rating stored after one more comment rated `r`: the old average
      weighted by the old count, plus `r`, over the new count. A missing rating
      or count counts as 0. */
  function NewRating(comic: Comic, r: int): (average: real)
    ensures var count := comic.ratingCount.GetOr(0);
            average * (count + 1) as real == comic.rating.GetOr(0.0) * count as real + r as real
  {
    var current := comic.rating.GetOr(0.0);
    var count := comic.ratingCount.GetOr(0);
    DivTimes(current * count as real + r as real, (count + 1) as real);
    (current * count as real + r as real) / (count + 1) as real
  }

  /** The record after a comment rated `r`: the rating becomes the new running
      average and the count moves on with it; nothing else in the record
      changes. */
  function RateComic(comic: Comic, r: int): (rated: Comic)
    ensures rated.rating == Some(NewRating(comic, r))
    ensures rated.ratingCount == Some(comic.ratingCount.GetOr(0) + 1)
    ensures rated == comic.(rating := rated.rating, ratingCount := rated.ratingCount)
  {
    comic.(rating := Some(NewRating(comic, r)), ratingCount := Some(comic.ratingCount.GetOr(0) + 1))
  }

  /** Sum of a list of ratings. */
  function Sum(ratings: seq<int>): (total: int)
  {
    if ratings == [] then 0 else Sum(ratings[..|ratings| - 1]) + ratings[|ratings| - 1]
  }

  /** Arithmetic mean of a list of ratings; 0 for no ratings, which is what a
      record without a rating shows. */
  function Mean(ratings: seq<int>): (mean: real)
  {
    if ratings == [] then 0.0 else Sum(ratings) as real / |ratings| as real
  }

  /** The running average is exact: if the stored rating is the mean of the
      `ratingCount` ratings given so far (or both fields are missing, before
      the first comment), then after a comment rated `r` the record holds the
      mean of those ratings and `r`, and their number. */
  lemma RateComicKeepsMean(comic: Comic, ratings: seq<int>, r: int)
    requires comic.rating.GetOr(0.0) == Mean(ratings)
    requires comic.ratingCount.GetOr(0) == |ratings|
    ensures RateComic(comic, r).rating == Some(Mean(ratings + [r]))
    ensures RateComic(comic, r).ratingCount == Some(|ratings + [r]|)
  {
    var n := |ratings| as real;
    var all := ratings + [r];
    assert all[..|all| - 1] == ratings;
    assert Sum(all) == Sum(ratings) + r;
    if ratings != [] {
      DivTimes(Sum(ratings) as real, n);
    }
    assert Mean(ratings) * n == Sum(ratings) as real;
    assert NewRating(comic, r) == (Sum(ratings) as real + r as real) / (n + 1.0);
  }

  lemma DivTimes(s: real, n: real)
    requires n != 0.0
    ensures (s / n) * n == s
  {
  }

  lemma MulNonNegative(a: real, b: real)
    requires a >= 0.0 && b >= 0.0
    ensures a * b >= 0.0
  {
  }

  /** A quotient by a positive number lies between bounds the dividend lies
      between in multiples of that number. */
  lemma DivInRange(s: real, n: real, lo: real, hi: real)
    requires n > 0.0 && lo * n <= s <= hi * n
    ensures lo <= s / n <= hi
  {
    DivTimes(s, n);
  }

  /** Every rating a comment carries is between 1 and 5, so the mean of a
      non-empty list of them is too. */
  lemma {:induction false} SumBounds(ratings: seq<int>)
    requires forall i :: 0 <= i < |ratings| ==> 1 <= ratings[i] <= 5
    ensures |ratings| <= Sum(ratings) <= 5 * |ratings|
  {
    if ratings != [] {
      SumBounds(ratings[..|ratings| - 1]);
    }
  }

  lemma MeanInRange(ratings: seq<int>)
    requires ratings != []
    requires forall i :: 0 <= i < |ratings| ==> 1 <= ratings[i] <= 5
    ensures 1.0 <= Mean(ratings) <= 5.0
  {
    SumBounds(ratings);
    DivInRange(Sum(ratings) as real, |ratings| as real, 1.0, 5.0);
  }

  lemma MulDiv(a: real, n: real)
    requires n != 0.0
    ensures (a * n) / n == a
  {
  }

  /** A number whose multiple by a positive factor lies between the same
      multiples of two bounds lies between those bounds. */
  lemma ScaledInRange(a: real, n: real, lo: real, hi: real)
    requires n > 0.0 && lo * n <= a * n <= hi * n
    ensures lo <= a <= hi
  {
    DivInRange(a * n, n, lo, hi);
    MulDiv(a, n);
  }

  /** One step of the running average on plain numbers: an average in [1,5]
      over `count` ratings (any value when there are none) and a new rating in
      [1,5] give an average in [1,5], for any `average` that times the new
      count is the new total. */
  lemma AverageStepInRange(current: real, count: real, r: real, average: real)
    requires count >= 0.0
    requires count == 0.0 || 1.0 <= current <= 5.0
    requires 1.0 <= r <= 5.0
    requires average * (count + 1.0) == current * count + r
    ensures 1.0 <= average <= 5.0
  {
    var total := current * count + r;
    if count == 0.0 {
      assert total == r;
    } else {
      MulNonNegative(current - 1.0, count);
      MulNonNegative(5.0 - current, count);
      assert (current - 1.0) * count == current * count - count;
      assert (5.0 - current) * count == 5.0 * count - current * count;
    }
    assert 1.0 * (count + 1.0) <= total <= 5.0 * (count + 1.0);
    ScaledInRange(average, count + 1.0, 1.0, 5.0);
  }

  /** Without the history: a stored average in [1,5] (or no rating yet) and a
      new rating in [1,5] give a new average in [1,5]. */
  lemma RateComicStaysInRange(comic: Comic, r: int)
    requires comic.ratingCount.GetOr(0) == 0 || 1.0 <= comic.rating.GetOr(0.0) <= 5.0
    requires 1 <= r <= 5
    ensures 1.0 <= RateComic(comic, r).rating.value <= 5.0
  {
    var n := comic.ratingCount.GetOr(0) as real;
    assert (comic.ratingCount.GetOr(0) + 1) as real == n + 1.0;
    AverageStepInRange(comic.rating.GetOr(0.0), n, r as real, NewRating(comic, r));
    assert RateComic(comic, r).rating.value == NewRating(comic, r);
  }

  /** The worked example: an average of 4.0 over 3 ratings and a new 5 give
      4.25 over 4. */
  lemma RatingExample(comic: Comic)
    requires comic.rating == Some(4.0) && comic.ratingCount == Some(3)
    ensures RateComic(comic, 5).rating == Some(4.25)
    ensures RateComic(comic, 5).ratingCount == Some(4)
  {
  }

  // ---------------------------------------------------------------------------
  // The store

  /** Whether the comment reaches the store: the empty id is no valid
      collection path (building the reference throws) and `addDoc` may throw. */
  predicate CommentAdded(contentId: string, fault: Fault)
  {
    contentId != "" && fault != AddFails
  }

  /** Whether saveComment reports true: the comment was added, and neither of
      the later calls that is actually made threw. The record is always read;
      the update is made only when the record exists, so a failing update
      cannot hurt a save for a missing record. */
  predicate SaveSucceeds(comics: map<string, Comic>, contentId: string, fault: Fault)
  {
    CommentAdded(contentId, fault) && (fault == NoFault || (fault == UpdateFails && contentId !in comics))
  }

  /** A comment on a title without a record is saved and reported as a
      success even when the store's updates would fail: with no record there
      is no rating to update, so the update call is never made. */
  lemma SaveForMissingRecord(comics: map<string, Comic>, comments: map<string, seq<CommentData>>,
                             contentId: string, stored: CommentData, r: int)
    requires contentId != "" && contentId !in comics
    ensures SaveSucceeds(comics, contentId, UpdateFails)
    ensures CommentsAfterSave(comments, contentId, stored, UpdateFails)[contentId]
            == (if contentId in comments then comments[contentId] else []) + [stored]
    ensures ComicsAfterSave(comics, contentId, r, UpdateFails) == comics
  {
  }

  /** The comment sub-collections after saveComment: when the comment was
      added, `stored` is appended under `contentId`; nothing else changes. */
  function CommentsAfterSave(comments: map<string, seq<CommentData>>, contentId: string, stored: CommentData, fault: Fault): (after: map<string, seq<CommentData>>)
    ensures !CommentAdded(contentId, fault) ==> after == comments
    ensures CommentAdded(contentId, fault) ==> after.Keys == comments.Keys + {contentId}
    ensures CommentAdded(contentId, fault) ==>
              after[contentId] == (if contentId in comments then comments[contentId] else []) + [stored]
    ensures forall id :: id in comments && id != contentId ==> after[id] == comments[id]
  {
    if !CommentAdded(contentId, fault) then comments
    else comments[contentId := (if contentId in comments then comments[contentId] else []) + [stored]]
  }

  /** The comic records after saveComment: only when all three calls succeed
      on an existing record is its rating moved on by `r`. */
  function ComicsAfterSave(comics: map<string, Comic>, contentId: string, r: int, fault: Fault): (after: map<string, Comic>)
    ensures after.Keys == comics.Keys
    ensures forall id :: id in comics && id != contentId ==> after[id] == comics[id]
    ensures contentId in comics ==>
              after[contentId] == if CommentAdded(contentId, fault) && fault == NoFault
                                  then RateComic(comics[contentId], r) else comics[contentId]
  {
    if CommentAdded(contentId, fault) && fault == NoFault && contentId in comics
    then comics[contentId := RateComic(comics[contentId], r)]
    else comics
  }

  /** The "contents" collection (`comics`, by document id) and each document's
      "comments" sub-collection (`comments`, by the same id; a sub-collection
      may exist under an id that has no document). */
  class ContentStore {
    var comics: map<string, Comic>
    var comments: map<string, seq<CommentData>>

    constructor(comics: map<string, Comic>)
      ensures this.comics == comics && this.comments == map[]
    {
      this.comics := comics;
      this.comments := map[];
    }

    /** The comments stored under `id`, none if its sub-collection is empty. */
    function CommentsOf(id: string): (stored: seq<CommentData>)
      reads this
    {
      if id in comments then comments[id] else []
    }

    /** `fetchComicData(id)`: the record when the document exists, null when it
        does not, when the read fails, or for the empty id (which is not a valid
        document path). */
    method FetchComicData(id: string, reachable: bool) returns (result: Option<Comic>)
      ensures result.Some? <==> reachable && id != "" && id in comics
      ensures result.Some? ==> result.value == comics[id]
    {
      if reachable && id != "" && id in comics {
        result := Some(comics[id]);
      } else {
        result := None;
      }
    }

    /** `fetchPanelsByChapter(id, chapterNumber)`: null for a missing comic,
        otherwise the normalised chapter data. */
    method FetchPanelsByChapter(id: string, chapterNumber: int, reachable: bool) returns (result: Option<seq<Panel>>)
      ensures !(reachable && id != "" && id in comics) ==> result == None
      ensures reachable && id != "" && id in comics ==> result == ChapterPanels(comics[id].chapter, chapterNumber)
    {
      var comic := FetchComicData(id, reachable);
      if comic.None? {
        return None;
      }
      result := ChapterPanels(comic.value.chapter, chapterNumber);
    }

    /** `saveComment(contentId, c)`: add the comment (stamped with the server's
        time) to the sub-collection, then re-read the record and, if it exists,
        store the new average and count. Reports true unless a remote call that
        is made throws; what was written before the throw stays written. A
        missing record still gets the comment and the result true. */
    method SaveComment(contentId: string, c: CommentData, serverTime: int, fault: Fault) returns (ok: bool)
      modifies this
      ensures ok <==> SaveSucceeds(old(comics), contentId, fault)
      ensures comments == CommentsAfterSave(old(comments), contentId, c.(timestamp := serverTime), fault)
      ensures comics == ComicsAfterSave(old(comics), contentId, c.rating, fault)
    {
      if contentId == "" || fault == AddFails {
        return false;
      }
      comments := comments[contentId := CommentsOf(contentId) + [c.(timestamp := serverTime)]];
      if fault == ReadFails {
        return false;
      }
      if contentId in comics {
        if fault == UpdateFails {
          return false;
        }
        comics := comics[contentId := RateComic(comics[contentId], c.rating)];
      }
      return true;
    }

    /** `updateLikes(contentId, n)`: overwrite the `likes` field with `n`, with
        no read of the old value. Fails (false, nothing written) when the
        write does not reach the store, the id is empty (no valid document
        path) or the document does not exist. */
    method UpdateLikes(contentId: string, newLikeCount: int, reachable: bool) returns (ok: bool)
      modifies this
      ensures ok <==> reachable && contentId != "" && contentId in old(comics)
      ensures comics == if ok then old(comics)[contentId := old(comics)[contentId].(likes := Some(newLikeCount))]
                        else old(comics)
      ensures comments == old(comments)
    {
      ok := reachable && contentId != "" && contentId in comics;
      if ok {
        comics := comics[contentId := comics[contentId].(likes := Some(newLikeCount))];
      }
    }
  }
}
