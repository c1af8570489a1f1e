# codetales front end: a Dafny model

Codetales is a React single-page web comics site backed by a Firestore document
store. This project models the parts of its front end that hold logic:

- the **image cache hook**. A process-wide set of loaded image URLs is shared by
  every user of the hook. Each hook also keeps its own set. Images can be
  preloaded singly or in batches, and a finished load is recorded in both sets
  (`image_cache.dfy`).
- the **data layer**. It fetches a comic record, and it turns the record's
  chapter data into an ordered panel list, for both the keyed chapter map and
  the legacy flat array. Saving a comment also updates the record's running
  average rating. The like count is overwritten without a check
  (`database.dfy`).
- the **chapter reader**. It loads a chapter's panels, switches between the list
  view and the one-panel-at-a-time view, and pages with clamped
  Previous/Next buttons that grey out at the ends (`comic_detail.dfy`).
- the **landing page's hero rotator**. It crossfades between two background
  layers, ignores changes while a 600 ms transition runs, and rotates through
  the heroes in key order (`landing.dfy`).
- the **star rule** shared by the landing page and the title page. A star is
  filled when its index is below the rating's floor. The star at the floor is
  filled too when the rating's JavaScript fractional part `rating % 1` is at
  least 0.25 (`stars.dfy`).
- the **title page**. It shows the record, and a like toggle is remembered in the
  browser's `likedContents` entry. The "Latest Release" link points at the
  largest chapter key. The comment form posts only when the text and name are
  not blank once trimmed (using JavaScript's whitespace set) and a rating is
  chosen (`content_page.dfy`).
- the **asset registry** and its dotted-path lookup `getAsset` (`assets.dfy`).

The remote store is a `ContentStore` object that holds two maps: comic records
by id, and each record's comment list. Every remote failure the source catches
is a parameter of the operation: `reachable` for a single call, and `Fault` for
the three calls of `saveComment`. The page's `contentId` route parameter and the
browser's `likedContents` entry are constructor arguments. The server timestamp
and the client clock are integer parameters.

The model follows the code as written, in particular:
- The reader keeps its panel index when new panels arrive. It is not reset.
- The cache is one module-level map shared by all hook instances.
- Neither page preloads neighbouring panels.
- A record whose `chapter` is an object without the requested number yields
  no panels, just like one with no chapter data.
- Some state is written but never displayed. The title page's `commentError` and
  `isPostingComment` (src/pages/ContentPage.tsx:29-30) and the reader's `error` and
  `loading` (src/pages/ComicDetail.tsx:11-12) are set but never read. So a failed
  post shows nothing: the text simply stays in the form. An empty chapter renders
  an empty page. The model keeps these fields so that its contracts can say what
  each handler records.

## Model

| member | source | states |
|---|---|---|
| Assets.Registry | src/lib/assets.ts:25-34 | the registry root is a group holding exactly `images` and `icons` |
| Assets.Split | src/lib/assets.ts:42 | `path.split('.')` yields at least one segment, and no segment contains a dot |
| Assets.JoinSplit | src/lib/assets.ts:42 | joining the segments with dots gives back the path (split loses nothing) |
| Assets.SplitWithoutDot | src/lib/assets.ts:42 | a path without a dot is a single segment |
| Assets.SplitAtDot | src/lib/assets.ts:42 | splitting `a.b` is splitting `a` followed by splitting `b` |
| Assets.Child | src/lib/assets.ts:46-49 | a segment resolves exactly when the current node is a group that has that key |
| Assets.Lookup | src/lib/assets.ts:45-50 | the empty path is the node itself; a first segment the node does not hold as a group key yields undefined |
| Assets.GetAsset | src/lib/assets.ts:41-53 | the loop over the segments returns the lookup of the whole split path; a missing segment yields undefined |
| Assets.LookupAppend | src/lib/assets.ts:45-50 | walking `p + q` is walking `p` and then walking `q` from where it ends; undefined stays undefined |
| Assets.DottedPathComposes | src/lib/assets.ts:41-53 | looking up `a.b` is looking up `b` inside what `a` resolves to |
| Assets.TwoSegmentPath | src/lib/assets.ts:41-53 | a dot-free group and key resolve to that key's child of that group's child |
| Assets.LookupOne | src/lib/assets.ts:45-50 | a one-segment path resolves to that child |
| Assets.LogoPathExample | src/lib/assets.ts:25-53 | `images.codetalesLogo` resolves to the imported logo URL |
| Assets.GroupPathExample | src/lib/assets.ts:25-53 | `images` alone resolves to the images group itself, not to a string |
| Assets.UnknownFirstSegment | src/lib/assets.ts:46-48 | a first segment the registry lacks yields undefined |
| Assets.EmptyPathIsUndefined | src/lib/assets.ts:41-48 | the empty path splits into `[""]`, which the registry lacks, so it is undefined |
| Database.ToPanels | src/hooks/database.ts:167 | one panel per URL, in the same order, each carrying its URL |
| Database.Images | src/pages/ComicDetail.tsx:62-70 | the list view shows one image per panel, in panel order |
| Database.PanelsRoundTrip | src/hooks/database.ts:167 | turning URLs into panels and back gives the URLs, and panels into URLs and back gives the panels |
| Database.ChapterPanels | src/hooks/database.ts:157-190 | panels exist iff the data is a flat array, or a keyed map whose requested number maps to an array; they carry exactly that array's URLs in order; missing or unrecognised data gives none |
| Database.FlatChapterPanels | src/hooks/database.ts:179-181 | a legacy flat array yields the same panels whatever chapter number is asked for |
| Database.RateComic | src/hooks/database.ts:230-242 | the rating becomes the new running average (NewRating) and the count the old count (missing = 0) plus one; no other field of the record changes |
| Database.NewRating | src/hooks/database.ts:231-236 | the new average times the new count is the old total (missing rating and count = 0) plus the new rating |
| Database.RateComicKeepsMean | src/hooks/database.ts:231-236 | if the stored rating is the mean of the ratings so far, the update stores the mean of those ratings and the new one |
| Database.SumBounds | src/hooks/database.ts:236 | n ratings in 1..5 sum to between n and 5n |
| Database.MeanInRange | src/hooks/database.ts:236 | the mean of ratings in 1..5 is in [1,5] |
| Database.AverageStepInRange | src/hooks/database.ts:235-236 | one running-average step keeps an average in [1,5] when the new rating is in [1,5] |
| Database.RateComicStaysInRange | src/hooks/database.ts:231-236 | a record whose rating is in [1,5] (or which has no ratings yet) keeps its rating in [1,5] after a comment rated 1..5 |
| Database.RatingExample | src/hooks/database.ts:231-236 | 4.0 over 3 ratings and a new 5 give 4.25 over 4 |
| Database.CommentsAfterSave | src/hooks/database.ts:214-221 | the comment is appended under its title unless the id is empty or adding it threw; the other titles' comments are untouched |
| Database.ComicsAfterSave | src/hooks/database.ts:224-243 | only when the comment was added, the read and the update succeed and the record exists does its rating move on; no record is added or removed |
| Database.SaveForMissingRecord | src/hooks/database.ts:227-245 | for a title without a record, a failing update does not matter: the save reports true, the comment is stored and no record changes |
| Database.ContentStore.FetchComicData | src/hooks/database.ts:113-139 | a record is returned iff the store is reachable, the id is non-empty and the record exists; it is that record |
| Database.ContentStore.FetchPanelsByChapter | src/hooks/database.ts:147-195 | no record gives null; otherwise the chapter normalisation of the record's chapter data |
| Database.ContentStore.SaveComment | src/hooks/database.ts:206-250 | true iff the id is non-empty, adding did not throw, reading did not throw, and the update, which is made only for an existing record, did not throw; unless the id is empty or adding threw, the comment is stored with the server's timestamp, even when the save then reports false; the rating moves on only for an existing record when every call succeeds |
| Database.ContentStore.UpdateLikes | src/hooks/database.ts:282-297 | succeeds iff the store is reachable, the id is non-empty and the record exists; then `likes` is overwritten, and nothing else changes |
| ComicDetail.PagerStaysOnAPanel | src/pages/ComicDetail.tsx:79-90 | on a non-empty chapter both buttons keep the index on a panel, moving by one except at their own end |
| ComicDetail.PreviousIndex | src/pages/ComicDetail.tsx:79 | Previous never goes below 0 nor back more than one: it moves back exactly one, or lands on 0 |
| ComicDetail.NextIndex | src/pages/ComicDetail.tsx:89 | Next never passes the last panel nor moves more than one: it moves on exactly one, or lands on the last panel |
| ComicDetail.ComicReader.constructor | src/pages/ComicDetail.tsx:10-39 | the reader starts with no panels, in list view, at panel 0, loading, without an error |
| ComicDetail.ComicReader.ReceivePanels | src/pages/ComicDetail.tsx:14-36 | without both route parameters only the error is cleared and loading ends; a non-empty panel list replaces the panels; null or empty sets the "No panels found" error and keeps the old panels; mode and index are kept |
| ComicDetail.ComicReader.SetViewMode | src/pages/ComicDetail.tsx:48-54 | the mode becomes the chosen one |
| ComicDetail.ComicReader.Previous | src/pages/ComicDetail.tsx:79 | the index becomes `max(0, i - 1)` |
| ComicDetail.ComicReader.Next | src/pages/ComicDetail.tsx:89 | the index becomes `min(count - 1, i + 1)` |
| ComicDetail.ComicReader.PreviousDisabled | src/pages/ComicDetail.tsx:80 | Previous is greyed out exactly when pressing it would not move the index |
| ComicDetail.ComicReader.NextDisabled | src/pages/ComicDetail.tsx:90 | Next is greyed out exactly when pressing it would not move the index |
| ComicDetail.ComicReader.RenderedImages | src/pages/ComicDetail.tsx:60-100 | list view shows every panel's image in order; page view shows the current panel only, and nothing for an empty chapter |
| Stars.Trunc | src/App.tsx:80 | rounds toward zero: the result lies within 1 of the rating, on the zero side, and has the rating's sign |
| Stars.JsFraction | src/App.tsx:80-81 | `rating % 1` lies strictly between -1 and 1; for a non-negative rating it is the part after the floor, and for a negative one it lies in (-1, 0] |
| Stars.StarFilled | src/App.tsx:169-171 | a star is filled iff its index is below the floor, or it is at the floor and `rating % 1` is at least 0.25 |
| Stars.FilledAmong | src/App.tsx:167-177 | at most k of the first k stars are filled |
| Stars.FilledAmongIsPrefix | src/App.tsx:167-177 | the number of filled stars among the first k is the floor plus one if the fraction is at least 0.25, capped to 0..k; with StarFilled, those are the first ones |
| Stars.FilledStarCount | src/App.tsx:78-82 | of the 5 stars, a non-negative rating fills the floor plus one if the fraction is at least 0.25, capped at 5; a negative rating fills none |
| Landing.IndexOf | src/App.tsx:53 | `indexOf` finds the first occurrence, and gives -1 exactly when the key is absent |
| Landing.NextPosition | src/App.tsx:54 | the next position is always a valid position |
| Landing.Advance | src/App.tsx:52-55 | after at least one tick the rotation is on a valid position |
| Landing.NextPositionStep | src/App.tsx:54 | from a valid position the next one is one further, wrapping from the last back to 0 |
| Landing.AdvanceWithinRound | src/App.tsx:52-55 | up to one full round of steps advances by that many positions, modulo the count |
| Landing.RotationVisitsEveryPosition | src/App.tsx:46-63 | the rotation reaches every hero within one round, and a full round comes back to the start |
| Landing.HeroRotator.constructor | src/App.tsx:24-44 | the rotator starts on hero "1", not transitioning, layer 1 showing hero 1's thumbnail and layer 2 empty |
| Landing.HeroRotator.ChangeHero | src/App.tsx:84-113 | selecting the shown hero or changing during a transition does nothing; otherwise the new thumbnail goes onto the hidden layer, the layers swap, both indices move to the new hero and a transition starts |
| Landing.HeroRotator.EndTransition | src/App.tsx:109-112 | the transition ends; nothing else changes |
| Landing.HeroRotator.AutoRotate | src/App.tsx:52-56 | with a transition running nothing changes; otherwise the hero after the displayed one (in key order, wrapping) goes onto the hidden layer, the layers swap, the other layer keeps its image, both indices move and a transition starts |
| Landing.HeroRotator.HeroStarFilled | src/App.tsx:167-177 | the hero's stars follow the star rule for the active hero's rating |
| ImageCache.MarkLoadedIdempotentCommutative | src/hooks/useImageCache.ts:28-35 | recording a load twice is recording it once, and two loads may finish in either order |
| ImageCache.MarkLoaded | src/hooks/useImageCache.ts:28-35 | a finished load puts that image in both the shared and the local set and marks no other image loaded; both sets only grow, by that image at most |
| ImageCache.Request | src/hooks/useImageCache.ts:38-49 | preloading an image requests nothing iff it is already loaded, and otherwise exactly that image |
| ImageCache.PreloadRequests | src/hooks/useImageCache.ts:52-54 | a batch requests at most one image per source |
| ImageCache.PreloadRequestsSpec | src/hooks/useImageCache.ts:38-54 | a batch requests exactly the sources not yet loaded |
| ImageCache.PreloadRequestsAppend | src/hooks/useImageCache.ts:52-54 | preloading a list and then one more source requests the list's images followed by that source's request |
| ImageCache.GlobalImageCache.constructor | src/hooks/useImageCache.ts:4 | the shared cache starts empty |
| ImageCache.ImageCacheHook.constructor | src/hooks/useImageCache.ts:20 | a hook starts with an empty local set, sharing the given global cache |
| ImageCache.ImageCacheHook.IsLoaded | src/hooks/useImageCache.ts:23-25 | an image is loaded iff it is in either set, which is iff it is in the global set |
| ImageCache.ImageCacheHook.HandleImageLoad | src/hooks/useImageCache.ts:28-35 | the image is added to both the global and the local set |
| ImageCache.ImageCacheHook.PreloadImage | src/hooks/useImageCache.ts:38-49 | a loaded image is skipped; otherwise one browser load is started; neither set changes yet |
| ImageCache.ImageCacheHook.PreloadImages | src/hooks/useImageCache.ts:52-54 | the loads started are exactly the batch's requests, in order; neither set changes |
| ImageCache.ImageCacheHook.ImageLoaded | src/hooks/useImageCache.ts:46-48 | a started load finishing runs the load handler and retires that request |
| ImageCache.ImageCacheHook.ImageFailed | src/hooks/useImageCache.ts:44-48 | a started load failing retires the request and marks nothing loaded |
| ContentPage.TrimStartEmpty | src/pages/ContentPage.tsx:100 | trimming the front leaves nothing iff every character is whitespace, and otherwise starts at a non-whitespace character |
| ContentPage.TrimEndKeepsFirst | src/pages/ContentPage.tsx:100 | trimming the end of a string that starts with a non-whitespace character keeps that first character and ends at a non-whitespace character |
| ContentPage.TrimStart | src/pages/ContentPage.tsx:100 | trimming the front leaves a suffix of the string, and everything dropped before it is whitespace |
| ContentPage.TrimEnd | src/pages/ContentPage.tsx:100 | trimming the end leaves a prefix of the string, and everything dropped after it is whitespace |
| ContentPage.Trim | src/pages/ContentPage.tsx:100 | `trim()` is the slice of the string between a leading and a trailing run of whitespace; it is empty iff every character is whitespace, and otherwise starts and ends with a non-whitespace character |
| ContentPage.TrimIsSlice | src/pages/ContentPage.tsx:100 | trimming both ends leaves the slice of the string after its leading whitespace, with only whitespace after it |
| ContentPage.TrimBothEnds | src/pages/ContentPage.tsx:100 | trimming both ends leaves nothing iff the string is all whitespace, and otherwise no whitespace at either end |
| ContentPage.HasText | src/pages/ContentPage.tsx:100 | `s.trim()` is truthy iff `s` has a non-whitespace character |
| ContentPage.RememberedLiked | src/pages/ContentPage.tsx:43-44 | a title is liked iff its key is in `likedContents` and maps to true; a key mapped to false is not liked |
| ContentPage.NextLikeCount | src/pages/ContentPage.tsx:60-63 | liking adds one; unliking takes one away, but never below 0 |
| ContentPage.LikeUnlikeRoundTrip | src/pages/ContentPage.tsx:60-63 | the like count never goes negative; liking and then unliking (or the reverse, from at least 1) restores the count |
| ContentPage.LikedAfter | src/pages/ContentPage.tsx:77-83 | liking stores true under the title; unliking deletes the title's key; afterwards the title is remembered as liked iff it was liked; other titles' entries are untouched |
| ContentPage.MaxKey | src/pages/ContentPage.tsx:276 | `Math.max` of the chapter numbers is one of them and no smaller than any |
| ContentPage.LatestChapter | src/pages/ContentPage.tsx:275-288 | the link opens the largest chapter number (n-1 for a flat array of n); there is no link exactly when the data is missing or has no keys |
| ContentPage.StarShown | src/pages/ContentPage.tsx:143-146 | a record without a rating fills no star; otherwise the star rule applies |
| ContentPage.ContentPageView.constructor | src/pages/ContentPage.tsx:19-30 | the page starts loading, with no record, no comments, an empty form and not liked |
| ContentPage.ContentPageView.Load | src/pages/ContentPage.tsx:32-53 | the record is shown iff it can be fetched; the fetched comments are shown; liked iff remembered as liked |
| ContentPage.ContentPageView.EditComment | src/pages/ContentPage.tsx:90-92 | the comment text becomes the typed text |
| ContentPage.ContentPageView.EditUsername | src/pages/ContentPage.tsx:94-96 | the name becomes the typed name |
| ContentPage.ContentPageView.SelectRating | src/pages/ContentPage.tsx:309-318 | a 1-5 button selects that rating |
| ContentPage.ContentPageView.ToggleLike | src/pages/ContentPage.tsx:56-88 | without an id or a record nothing happens; otherwise the flag, the shown count and the remembered likes change only when the store accepted the new count |
| ContentPage.ContentPageView.PostDisabled | src/pages/ContentPage.tsx:342-346 | Post is enabled iff the text and name each have a non-whitespace character and a rating is chosen |
| ContentPage.ContentPageView.CanSubmit | src/pages/ContentPage.tsx:100 | the handler goes on iff Post is enabled and the page has an id |
| ContentPage.ContentPageView.SubmitComment | src/pages/ContentPage.tsx:98-136 | an incomplete form changes nothing; when the store reports the save a success, the comment is prepended, text and rating are cleared, the name is kept and the record is refetched; otherwise the form and list are kept and only the error message is set |
| ContentPage.ContentPageView.PostComment | src/pages/ContentPage.tsx:101-133 | the store changes as saveComment promises and the posting flag ends off; a reported success prepends the comment, clears text and rating and shows the refetched record; a reported failure keeps the list and form and sets the error |
| ContentPage.ContentPageView.BookStarFilled | src/pages/ContentPage.tsx:182-186 | the record's stars follow the star rule, and no star is filled without a record or a rating |

## Left out

- Firestore and the network: the store is two in-memory maps. A remote failure is a parameter. Retries, latency and offline caching are not modelled.
- fetchComicSummaries, fetchComments, useFetchData and useFetchComicSummaries: they are not part of this model. The comments a page loads are a parameter of `ContentPage.ContentPageView.Load`.
- Timers: the 5000 ms auto-rotate and 600 ms transition timeouts, and their clean-up, are the methods `AutoRotate` and `EndTransition`. Timing itself is not modelled.
- Concurrency: async calls complete one at a time, in the order the methods run. Lost updates between two users rating or liking at once are not modelled.
- React state batching and stale closures: each handler's updates are applied at once, as if the page re-rendered between events.
- Floating point: ratings are exact reals. Rounding in the average, `toFixed(1)` and NaN from a missing rating are not modelled; a missing rating is handled as a separate case.
- localStorage: the `likedContents` entry is a map. JSON parsing, and malformed or foreign values in it, are not modelled.
- Assets.GetAsset: JavaScript property lookup on string leaves (`"abc".length`) and inherited object properties (`toString`) are not modelled. A segment under a leaf yields undefined.
- Database.ChapterPanels: chapter numbers are integers. The `parseInt` of a non-numeric route segment (NaN) and string-valued chapter data are not modelled.
- ContentPage.LatestChapter: non-numeric chapter keys (which make the link read NaN) are not modelled.
- "Failed to fetch book information" (src/pages/ContentPage.tsx:46): it is reached only when `JSON.parse` of `likedContents` throws, or the parsed value is null, at lines 43-44; malformed entries are left out (see localStorage above), so the model never shows it.
- The catch branches "Failed to fetch panels" and "An error occurred while posting your comment.": they cannot be reached, because the data-layer functions they wrap catch their own errors.
- Preloading of the landing page's hero thumbnails (src/App.tsx:32-38): these are fire-and-forget browser loads with no state.
- ComicDetail.ComicReader.RenderedImages: an index past the end of a shorter chapter makes the page fail to render. The model shows no image instead.
- The hover highlight of the rating buttons, the rest of the markup, navigation, and the static pages.
- env.ts, colors.ts, firebase.ts, main.tsx and vite.config.ts: these are configuration, not logic.
