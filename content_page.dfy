/** A title's page (src/pages/ContentPage.tsx): the record's stars, the like
    toggle with its locally remembered liked titles, the latest-chapter link
    and the comment form. Remote calls go through the content store object;
    the browser's localStorage entry of liked titles is the `likedContents`
    field. */
module ContentPage {
  import opened Optional
  import opened Database
  import Stars

  // ---------------------------------------------------------------------------
  // String.prototype.trim

  /** JavaScript's white space and line terminators, which `trim` removes. */
  predicate IsJsWhitespace(c: char)
  {
    || c == ' ' || c == '\t' || c == '\n' || c == '\r' || c == '\U{000B}' || c == '\U{000C}'
    || c == '\U{00A0}' || c == '\U{1680}' || ('\U{2000}' <= c <= '\U{200A}')
    || c == '\U{2028}' || c == '\U{2029}' || c == '\U{202F}' || c == '\U{205F}'
    || c == '\U{3000}' || c == '\U{FEFF}'
  }

  /** `s` without its leading white space: a suffix of `s`, and everything
      dropped before it is white space. */
  function TrimStart(s: string): (t: string)
    ensures |t| <= |s| && t == s[|s| - |t|..]
    ensures forall j :: 0 <= j < |s| - |t| ==> IsJsWhitespace(s[j])
  {
    if s != [] && IsJsWhitespace(s[0]) then
      var t := TrimStart(s[1..]);
      assert forall j :: 1 <= j < |s| - |t| ==> s[j] == s[1..][j - 1];
      t
    else s
  }

  /** `s` without its trailing white space: a prefix of `s`, and everything
      dropped after it is white space. */
  function TrimEnd(s: string): (t: string)
    ensures |t| <= |s| && t == s[..|t|]
    ensures forall j :: |t| <= j < |s| ==> IsJsWhitespace(s[j])
  {
    if s != [] && IsJsWhitespace(s[|s| - 1]) then
      var t := TrimEnd(s[..|s| - 1]);
      assert forall j :: |t| <= j < |s| - 1 ==> s[j] == s[..|s| - 1][j];
      t
    else s
  }

  /** `t` is the slice of `s` starting at `i`, and everything of `s` before
      and after it is white space. */
  predicate WhitespaceAround(s: string, t: string, i: int)
  {
    && 0 <= i && i + |t| <= |s| && t == s[i..i + |t|]
    && (forall j :: 0 <= j < i ==> IsJsWhitespace(s[j]))
    && (forall j :: i + |t| <= j < |s| ==> IsJsWhitespace(s[j]))
  }

  /** `s.trim()`: the slice of `s` left between a leading and a trailing run of
      white space. Nothing is left exactly when `s` is all white space, and
      what is left neither starts nor ends with white space. */
  function Trim(s: string): (t: string)
    ensures exists i :: WhitespaceAround(s, t, i)
    ensures t == "" <==> forall i :: 0 <= i < |s| ==> IsJsWhitespace(s[i])
    ensures t != "" ==> !IsJsWhitespace(t[0]) && !IsJsWhitespace(t[|t| - 1])
  {
    TrimIsSlice(s);
    TrimBothEnds(s);
    TrimEnd(TrimStart(s))
  }

  /** Trimming the front and then the end leaves nothing exactly when `s` is
      all white space, and otherwise no white space at either end. */
  lemma {:induction false} TrimBothEnds(s: string)
    ensures TrimEnd(TrimStart(s)) == "" <==> forall i :: 0 <= i < |s| ==> IsJsWhitespace(s[i])
    ensures var t := TrimEnd(TrimStart(s));
            t != "" ==> !IsJsWhitespace(t[0]) && !IsJsWhitespace(t[|t| - 1])
  {
    var front := TrimStart(s);
    TrimStartEmpty(s);
    if front == "" {
      assert TrimEnd(front) == "";
    } else {
      TrimEndKeepsFirst(front);
      assert TrimEnd(front)[0] == front[0];
    }
  }

  /** Trimming the front and then the end leaves the slice of `s` between two
      runs of white space. */
  lemma {:induction false} TrimIsSlice(s: string)
    ensures WhitespaceAround(s, TrimEnd(TrimStart(s)), |s| - |TrimStart(s)|)
  {
    var front := TrimStart(s);
    WhitespaceAroundPrefixOfSuffix(s, |s| - |front|, front, TrimEnd(front));
  }

  /** A prefix `t` of the suffix `front` of `s` starting at `i`, with white
      space before `front` and after `t`, is the slice of `s` at `i` with
      white space around it. */
  lemma WhitespaceAroundPrefixOfSuffix(s: string, i: int, front: string, t: string)
    requires 0 <= i <= |s| && front == s[i..]
    requires |t| <= |front| && t == front[..|t|]
    requires forall j :: 0 <= j < i ==> IsJsWhitespace(s[j])
    requires forall j :: |t| <= j < |front| ==> IsJsWhitespace(front[j])
    ensures WhitespaceAround(s, t, i)
  {
    assert t == s[i..i + |t|];
    forall j | i + |t| <= j < |s|
      ensures IsJsWhitespace(s[j])
    {
      assert s[j] == front[j - i];
    }
  }

  /** Whether `s.trim()` is truthy: a field passes the form's check exactly
      when it holds a character other than white space. */
  predicate HasText(s: string)
    ensures HasText(s) <==> exists i :: 0 <= i < |s| && !IsJsWhitespace(s[i])
  {
    Trim(s) != ""
  }

  lemma {:induction false} TrimStartEmpty(s: string)
    ensures TrimStart(s) == "" <==> forall i :: 0 <= i < |s| ==> IsJsWhitespace(s[i])
    ensures TrimStart(s) != "" ==> !IsJsWhitespace(TrimStart(s)[0])
  {
    if s != [] && IsJsWhitespace(s[0]) {
      TrimStartEmpty(s[1..]);
      assert forall i :: 1 <= i < |s| ==> s[i] == s[1..][i - 1];
    }
  }

  /** Trimming the end of a string that starts with a character other than
      white space keeps that first character and ends on such a character. */
  lemma {:induction false} TrimEndKeepsFirst(s: string)
    requires s != "" && !IsJsWhitespace(s[0])
    ensures TrimEnd(s) != "" && TrimEnd(s)[0] == s[0]
    ensures !IsJsWhitespace(TrimEnd(s)[|TrimEnd(s)| - 1])
  {
    if IsJsWhitespace(s[|s| - 1]) {
      TrimEndKeepsFirst(s[..|s| - 1]);
    }
  }

  // ---------------------------------------------------------------------------
  // Likes

  /** The like count sent to the store: one more when liking, one fewer but
      not below 0 when unliking. */
  function NextLikeCount(likes: int, liking: bool): (count: int)
    ensures liking ==> count == likes + 1
    ensures !liking ==> count >= 0 && count >= likes - 1 && (count == 0 || count == likes - 1)
  {
    if liking then likes + 1 else if likes - 1 >= 0 then likes - 1 else 0
  }

  /** Counts stay non-negative, and a like followed by an unlike restores any
      non-negative count; an unlike followed by a like restores any positive
      one (at 0 the unlike is absorbed by the floor). */
  lemma LikeUnlikeRoundTrip(likes: int)
    ensures likes >= 0 ==> NextLikeCount(likes, true) >= 0 && NextLikeCount(likes, false) >= 0
    ensures NextLikeCount(likes, false) >= 0
    ensures likes >= 0 ==> NextLikeCount(NextLikeCount(likes, true), false) == likes
    ensures likes >= 1 ==> NextLikeCount(NextLikeCount(likes, false), true) == likes
    ensures likes <= 0 ==> NextLikeCount(likes, false) == 0
  {
  }

  /** The remembered liked titles after a successful toggle to `liked`: the
      title is set when liking and deleted when unliking. */
  function LikedAfter(likedContents: map<string, bool>, contentId: string, liked: bool): (after: map<string, bool>)
    ensures (contentId in after && after[contentId]) <==> liked
    ensures !liked ==> contentId !in after
    ensures RememberedLiked(after, contentId) <==> liked
    ensures forall id :: id != contentId ==> (id in after <==> id in likedContents)
    ensures forall id :: id != contentId && id in likedContents ==> after[id] == likedContents[id]
  {
    if liked then likedContents[contentId := true] else likedContents - {contentId}
  }

  /** Whether the page shows a title as liked on load: `!!likedContents[id]`. */
  predicate RememberedLiked(likedContents: map<string, bool>, contentId: string)
    ensures RememberedLiked(likedContents, contentId) ==> contentId in likedContents
    ensures contentId in likedContents && likedContents[contentId] ==> RememberedLiked(likedContents, contentId)
    ensures contentId in likedContents && !likedContents[contentId] ==> !RememberedLiked(likedContents, contentId)
  {
    contentId in likedContents && likedContents[contentId]
  }

  // ---------------------------------------------------------------------------
  // Latest chapter

  /** `Math.max(...keys)` for a non-empty set of chapter numbers. */
  ghost function MaxKey(keys: set<int>): (m: int)
    requires keys != {}
    ensures m in keys && forall k :: k in keys ==> k <= m
    decreases |keys|
  {
    NonEmptyHasElement(keys);
    var k :| k in keys;
    if keys == {k} then k
    else
      var rest := MaxKey(keys - {k});
      assert forall j :: j in keys ==> j == k || j in keys - {k};
      if k >= rest then k else rest
  }

  lemma NonEmptyHasElement(keys: set<int>)
    requires keys != {}
    ensures exists k :: k in keys
  {
    if forall k :: k !in keys {
      assert false;
    }
  }

  /** The chapter the "Latest Release" link opens: the largest key of the
      chapter data (an array's keys are its positions), or no link when the
      data is missing or has no keys. */
  ghost function LatestChapter(chapter: ChapterField): (latest: Option<int>)
    ensures chapter.Keyed? && chapter.chapters != map[] ==>
              latest.Some? && latest.value in chapter.chapters &&
              forall n :: n in chapter.chapters ==> n <= latest.value
    ensures chapter.Flat? && chapter.urls != [] ==> latest == Some(|chapter.urls| - 1)
    ensures latest.None? <==> chapter.NoChapter? || chapter.Unrecognized?
                              || chapter == Keyed(map[]) || chapter == Flat([])
  {
    match chapter
    case NoChapter => None
    case Keyed(chapters) => if chapters != map[] then Some(MaxKey(chapters.Keys)) else None
    case Flat(urls) => if urls != [] then Some(|urls| - 1) else None
    case Unrecognized => None
  }

  // ---------------------------------------------------------------------------
  // Stars

  /** Whether star `index` is drawn filled for the record's rating. A record
      without a rating draws no star filled (its floor is NaN); otherwise the
      landing page's rule applies. */
  function StarShown(rating: Option<real>, index: int): (filled: bool)
    ensures rating.None? ==> !filled
    ensures rating.Some? ==>
              (filled <==> index < rating.value.Floor
                           || (index == rating.value.Floor && Stars.JsFraction(rating.value) >= 0.25))
  {
    match rating
    case None => false
    case Some(r) => Stars.StarFilled(r, index)
  }

  // ---------------------------------------------------------------------------
  // The page

  const FailedToPost := "Failed to post comment. Please try again."

  class ContentPageView {
    const store: ContentStore
    /** The route's title id; "" when it gives none. */
    const contentId: string
    var bookInfo: Option<Comic>
    var loading: bool
    var comments: seq<CommentData>
    var isLiked: bool
    var likedContents: map<string, bool>
    var comment: string
    var username: string
    var selectedRating: Option<int>
    var commentError: Option<string>
    var isPostingComment: bool

    /** Mount, before the data effect has run. */
    constructor(store: ContentStore, contentId: string, likedContents: map<string, bool>)
      ensures this.store == store && this.contentId == contentId && this.likedContents == likedContents
      ensures bookInfo == None && loading && comments == [] && !isLiked
      ensures comment == "" && username == "" && selectedRating == None
      ensures commentError == None && !isPostingComment
    {
      this.store := store;
      this.contentId := contentId;
      this.likedContents := likedContents;
      bookInfo := None;
      loading := true;
      comments := [];
      isLiked := false;
      comment := "";
      username := "";
      selectedRating := None;
      commentError := None;
      isPostingComment := false;
    }

    /** The data effect: fetch the record, take the fetched comments (their
        query is not part of this model) and read the liked flag. */
    method Load(reachable: bool, fetchedComments: seq<CommentData>)
      modifies this`bookInfo, this`comments, this`isLiked, this`loading
      ensures bookInfo.Some? <==> reachable && contentId != "" && contentId in store.comics
      ensures bookInfo.Some? ==> bookInfo.value == store.comics[contentId]
      ensures comments == fetchedComments && !loading
      ensures isLiked == RememberedLiked(likedContents, contentId)
    {
      bookInfo := store.FetchComicData(contentId, reachable);
      comments := fetchedComments;
      isLiked := contentId in likedContents && likedContents[contentId];
      loading := false;
    }

    method EditComment(text: string)
      modifies this`comment
      ensures comment == text
    {
      comment := text;
    }

    method EditUsername(name: string)
      modifies this`username
      ensures username == name
    {
      username := name;
    }

    /** The rating buttons offer 1 to 5. */
    method SelectRating(n: int)
      requires 1 <= n <= 5
      modifies this`selectedRating
      ensures selectedRating == Some(n)
    {
      selectedRating := Some(n);
    }

    /** `handleLikeToggle`: nothing without a title id or a record; otherwise
        the new count goes to the store, and only if the store reports success
        do the liked flag, the shown count and the remembered liked titles
        change. */
    method ToggleLike(reachable: bool)
      modifies this`isLiked, this`bookInfo, this`likedContents, store
      ensures store.comments == old(store.comments)
      ensures contentId == "" || old(bookInfo).None? ==>
                store.comics == old(store.comics) && isLiked == old(isLiked)
                && bookInfo == old(bookInfo) && likedContents == old(likedContents)
      ensures contentId != "" && old(bookInfo).Some? ==>
                var liking := !old(isLiked);
                var newCount := NextLikeCount(old(bookInfo).value.likes.GetOr(0), liking);
                var ok := reachable && contentId in old(store.comics);
                && (ok ==> store.comics == old(store.comics)[contentId := old(store.comics)[contentId].(likes := Some(newCount))]
                           && isLiked == liking
                           && bookInfo == Some(old(bookInfo).value.(likes := Some(newCount)))
                           && likedContents == LikedAfter(old(likedContents), contentId, liking))
                && (!ok ==> store.comics == old(store.comics) && isLiked == old(isLiked)
                            && bookInfo == old(bookInfo) && likedContents == old(likedContents))
    {
      if contentId == "" || bookInfo.None? {
        return;
      }
      var liking := !isLiked;
      var likes := bookInfo.value.likes.GetOr(0);
      var newCount := if liking then likes + 1 else if likes - 1 >= 0 then likes - 1 else 0;
      var success := store.UpdateLikes(contentId, newCount, reachable);
      if success {
        isLiked := liking;
        bookInfo := Some(bookInfo.value.(likes := Some(newCount)));
        likedContents := if liking then likedContents[contentId := true] else likedContents - {contentId};
      }
    }

    /** The Post button is greyed out unless both fields have text and a
        rating is chosen; a submit goes ahead exactly when, in addition, the
        route gives a title id. */
    function PostDisabled(): (disabled: bool)
      reads this
      ensures !disabled <==> (exists i :: 0 <= i < |comment| && !IsJsWhitespace(comment[i]))
                             && (exists i :: 0 <= i < |username| && !IsJsWhitespace(username[i]))
                             && selectedRating.Some?
    {
      !HasText(comment) || !HasText(username) || selectedRating.None?
    }

    predicate CanSubmit()
      reads this
      ensures CanSubmit() <==> !PostDisabled() && contentId != ""
    {
      HasText(comment) && HasText(username) && selectedRating.Some? && contentId != ""
    }

    /** `handleSubmitComment`: when the form passes its check, the comment
        (stamped `now`) is saved. On success it is put first in the shown list,
        the text and the rating are cleared (the name stays) and the record is
        fetched again for its new rating; on failure the list and the form are
        kept and `FailedToPost` is recorded in `commentError`, a state the page
        never displays. */
    method SubmitComment(now: int, serverTime: int, fault: Fault, reachable: bool)
      modifies this`comments, this`comment, this`selectedRating, this`bookInfo,
               this`commentError, this`isPostingComment, store
      ensures username == old(username)
      ensures !old(CanSubmit()) ==>
                unchanged(store) && comments == old(comments) && comment == old(comment)
                && selectedRating == old(selectedRating) && bookInfo == old(bookInfo)
                && commentError == old(commentError) && isPostingComment == old(isPostingComment)
      ensures old(CanSubmit()) ==>
                Posted(old(comments), old(comment), old(username), old(selectedRating), old(bookInfo),
                       old(store.comments), old(store.comics), now, serverTime, fault, reachable)
    {
      if !CanSubmit() {
        return;
      }
      PostComment(now, serverTime, fault, reachable);
    }

    /** The body of the form's check: the comment is saved and the page
        updated according to the store's answer. */
    method PostComment(now: int, serverTime: int, fault: Fault, reachable: bool)
      requires selectedRating.Some?
      modifies this`comments, this`comment, this`selectedRating, this`bookInfo,
               this`commentError, this`isPostingComment, store
      ensures username == old(username)
      ensures Posted(old(comments), old(comment), old(username), old(selectedRating), old(bookInfo),
                     old(store.comments), old(store.comics), now, serverTime, fault, reachable)
    {
      ghost var comics0 := store.comics;
      isPostingComment := true;
      commentError := None;
      var posted := CommentData(comment, username, selectedRating.value, now);
      var success := store.SaveComment(contentId, posted, serverTime, fault);
      assert success == SaveSucceeds(comics0, contentId, fault);
      if success {
        comments := [posted] + comments;
        comment := "";
        selectedRating := None;
        bookInfo := store.FetchComicData(contentId, reachable);
      } else {
        commentError := Some(FailedToPost);
      }
      isPostingComment := false;
    }

    /** The state after a comment built from `comment0`, `username0` and
        `rating0` is posted: the store holds what saveComment leaves and the
        posting flag is off. When the store reports the save a success, the
        comment is put first in the shown list, the text and the rating are
        cleared and the record is the one fetched afterwards; otherwise the
        list and the form are as they were and `FailedToPost` is recorded in
        `commentError` (which nothing on the page reads). */
    ghost predicate Posted(comments0: seq<CommentData>, comment0: string, username0: string, rating0: Option<int>,
                           bookInfo0: Option<Comic>, storeComments0: map<string, seq<CommentData>>, storeComics0: map<string, Comic>,
                           now: int, serverTime: int, fault: Fault, reachable: bool)
      requires rating0.Some?
      reads this, store
    {
      var posted := CommentData(comment0, username0, rating0.value, now);
      var saved := SaveSucceeds(storeComics0, contentId, fault);
      && store.comments == CommentsAfterSave(storeComments0, contentId, posted.(timestamp := serverTime), fault)
      && store.comics == ComicsAfterSave(storeComics0, contentId, posted.rating, fault)
      && !isPostingComment
      && (saved ==>
            && comments == [posted] + comments0
            && comment == "" && selectedRating == None && commentError == None
            && (bookInfo.Some? <==> reachable && contentId in store.comics)
            && (bookInfo.Some? ==> bookInfo.value == store.comics[contentId]))
      && (!saved ==>
            && comments == comments0 && comment == comment0
            && selectedRating == rating0 && bookInfo == bookInfo0
            && commentError == Some(FailedToPost))
    }

    /** The record's star row. */
    function BookStarFilled(index: int): (filled: bool)
      reads this
      ensures bookInfo.None? || bookInfo.value.rating.None? ==> !filled
      ensures bookInfo.Some? && bookInfo.value.rating.Some? ==>
                var rating := bookInfo.value.rating.value;
                (filled <==> index < rating.Floor || (index == rating.Floor && Stars.JsFraction(rating) >= 0.25))
    {
      bookInfo.Some? && StarShown(bookInfo.value.rating, index)
    }
  }
}
