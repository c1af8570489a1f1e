/** The image-load cache (src/hooks/useImageCache.ts): which image URLs have
    finished loading. A module-wide map is shared by every user of the hook;
    each user also keeps a local set, which exists to make its view refresh.
    The browser's image loading is a ghost log of requests plus the two events
    that end a request, a load and a failure. */
module ImageCache {

  /** The two loaded sets: the shared one and one user's local one. */
  datatype CacheState = CacheState(global: set<string>, local: set<string>)

  /** `isLoaded(src)`. */
  predicate Loaded(s: CacheState, src: string)
  {
    src in s.global || src in s.local
  }

  /** `handleImageLoad(src)`: afterwards `src` is loaded; every other URL is
      loaded exactly when it was, and each set has gained `src` and nothing
      else. */
  function MarkLoaded(s: CacheState, src: string): (t: CacheState)
    ensures Loaded(t, src)
    ensures src in t.global && src in t.local
    ensures forall u :: u != src ==> (Loaded(t, u) <==> Loaded(s, u))
    ensures Grows(s, t)
    ensures t.global - s.global <= {src} && t.local - s.local <= {src}
  {
    CacheState(s.global + {src}, s.local + {src})
  }

  /** One cache state is contained in another: nothing was removed. */
  predicate Grows(s: CacheState, t: CacheState)
  {
    s.global <= t.global && s.local <= t.local
  }

  /** Marking twice is marking once, and marks commute, so loads completing in
      any order leave the same state. */
  lemma MarkLoadedIdempotentCommutative(s: CacheState, a: string, b: string)
    ensures MarkLoaded(MarkLoaded(s, a), a) == MarkLoaded(s, a)
    ensures MarkLoaded(MarkLoaded(s, a), b) == MarkLoaded(MarkLoaded(s, b), a)
  {
  }

  /** The image requests `preloadImages(srcs)` issues from state `s`: one per
      element not yet loaded, in order. The state cannot change during the
      loop (loads complete later), so a URL listed twice is requested twice. */
  function PreloadRequests(s: CacheState, srcs: seq<string>): (requests: seq<string>)
    ensures |requests| <= |srcs|
  {
    if srcs == [] then [] else Request(s, srcs[0]) + PreloadRequests(s, srcs[1..])
  }

  /** The requests `preloadImage(src)` issues from state `s`: none for a
      loaded image, otherwise exactly one, for `src`. */
  function Request(s: CacheState, src: string): (requests: seq<string>)
    ensures requests == [] <==> Loaded(s, src)
    ensures requests != [] ==> requests == [src]
  {
    if Loaded(s, src) then [] else [src]
  }

  /** At most one request per element, each for a listed URL that is not
      loaded; none at all when every URL is already loaded; and every listed
      URL that is not loaded is requested. */
  lemma {:induction false} PreloadRequestsSpec(s: CacheState, srcs: seq<string>)
    ensures forall u :: u in PreloadRequests(s, srcs) <==> u in srcs && !Loaded(s, u)
  {
    if srcs != [] {
      PreloadRequestsSpec(s, srcs[1..]);
      assert srcs == [srcs[0]] + srcs[1..];
    }
  }

  /** The module-wide map, shared by every user of the hook. The map only ever
      holds `true`, so its key set is all there is to it. */
  class GlobalImageCache {
    var entries: set<string>

    constructor()
      ensures entries == {}
    {
      entries := {};
    }
  }

  /** One mounted user of the hook. */
  class ImageCacheHook {
    const global: GlobalImageCache
    var loadedImages: set<string>
    /** Every image request issued, in order. */
    ghost var requests: seq<string>
    /** Issued requests that have neither loaded nor failed yet. */
    ghost var pending: multiset<string>

    function State(): (s: CacheState)
      reads this, global
    {
      CacheState(global.entries, loadedImages)
    }

    /** Whatever this user marked is also in the shared map, which nobody
        shrinks. */
    ghost predicate Valid()
      reads this, global
    {
      loadedImages <= global.entries
    }

    /** Mount: an empty local set over the shared map as it is. */
    constructor(global: GlobalImageCache)
      ensures Valid()
      ensures this.global == global && loadedImages == {}
      ensures requests == [] && pending == multiset{}
    {
      this.global := global;
      loadedImages := {};
      requests := [];
      pending := multiset{};
    }

    /** `isLoaded(src)`. */
    method IsLoaded(src: string) returns (loaded: bool)
      requires Valid()
      ensures loaded == Loaded(State(), src)
      ensures loaded <==> src in global.entries
    {
      loaded := src in global.entries || src in loadedImages;
    }

    /** `handleImageLoad(src)`. */
    method HandleImageLoad(src: string)
      requires Valid()
      modifies this`loadedImages, global
      ensures Valid()
      ensures State() == MarkLoaded(old(State()), src)
    {
      global.entries := global.entries + {src};
      loadedImages := loadedImages + {src};
    }

    /** `preloadImage(src)`: nothing when `src` is already loaded; otherwise
        one image request, and no change to the loaded sets until it loads. */
    method PreloadImage(src: string)
      requires Valid()
      modifies this`requests, this`pending
      ensures Valid()
      ensures State() == old(State())
      ensures requests == old(requests) + Request(State(), src)
      ensures pending == old(pending) + multiset(Request(State(), src))
    {
      if src in global.entries || src in loadedImages {
        return;
      }
      requests := requests + [src];
      pending := pending + multiset{src};
    }

    /** `preloadImages(srcs)`: `preloadImage` on each element in order. */
    method PreloadImages(srcs: seq<string>)
      requires Valid()
      modifies this`requests, this`pending
      ensures Valid()
      ensures requests == old(requests) + PreloadRequests(State(), srcs)
      ensures pending == old(pending) + multiset(PreloadRequests(State(), srcs))
    {
      ghost var s := State();
      ghost var requests0, pending0 := requests, pending;
      var i := 0;
      while i < |srcs|
        invariant 0 <= i <= |srcs|
        invariant loadedImages == s.local && global.entries == s.global
        invariant requests == requests0 + PreloadRequests(s, srcs[..i])
        invariant pending == pending0 + multiset(PreloadRequests(s, srcs[..i]))
      {
        PreloadImage(srcs[i]);
        assert State() == s;
        IssueStep(s, srcs, i, requests0, pending0);
        i := i + 1;
      }
      assert srcs[..i] == srcs;
    }

    /** The browser reports that a requested image loaded: its `onload` marks
        it. */
    method ImageLoaded(src: string)
      requires Valid() && src in pending
      modifies this`loadedImages, this`pending, global
      ensures Valid()
      ensures State() == MarkLoaded(old(State()), src)
      ensures pending == old(pending) - multiset{src} && requests == old(requests)
    {
      pending := pending - multiset{src};
      HandleImageLoad(src);
    }

    /** The browser reports that a requested image failed: nothing is marked. */
    method ImageFailed(src: string)
      requires Valid() && src in pending
      modifies this`pending
      ensures Valid()
      ensures pending == old(pending) - multiset{src} && requests == old(requests)
    {
      pending := pending - multiset{src};
    }
  }

  /** The bookkeeping of one step of `preloadImages`: the requests issued
      for one more element extend both the request log and the outstanding
      requests by that element's request. */
  lemma IssueStep(s: CacheState, srcs: seq<string>, i: int, requests0: seq<string>, pending0: multiset<string>)
    requires 0 <= i < |srcs|
    ensures var before, r := PreloadRequests(s, srcs[..i]), Request(s, srcs[i]);
            && requests0 + before + r == requests0 + PreloadRequests(s, srcs[..i + 1])
            && pending0 + multiset(before) + multiset(r) == pending0 + multiset(PreloadRequests(s, srcs[..i + 1]))
  {
    assert srcs[..i + 1] == srcs[..i] + [srcs[i]];
    PreloadRequestsAppend(s, srcs[..i], srcs[i]);
    AppendBookkeeping(requests0, pending0, PreloadRequests(s, srcs[..i]), Request(s, srcs[i]),
                      PreloadRequests(s, srcs[..i + 1]));
  }

  /** Appending `before` and then `r` to a log and to a multiset of
      outstanding requests is appending their concatenation `after`. */
  lemma AppendBookkeeping(requests0: seq<string>, pending0: multiset<string>,
                          before: seq<string>, r: seq<string>, after: seq<string>)
    requires after == before + r
    ensures requests0 + before + r == requests0 + after
    ensures pending0 + multiset(before) + multiset(r) == pending0 + multiset(after)
  {
    assert multiset(before + r) == multiset(before) + multiset(r);
    assert requests0 + before + r == requests0 + (before + r);
  }

  /** The requests of a list extended by one element. */
  lemma {:induction false} PreloadRequestsAppend(s: CacheState, srcs: seq<string>, src: string)
    ensures PreloadRequests(s, srcs + [src]) == PreloadRequests(s, srcs) + Request(s, src)
  {
    if srcs == [] {
      assert srcs + [src] == [src];
      assert PreloadRequests(s, [src]) == Request(s, src) + PreloadRequests(s, []);
    } else {
      assert (srcs + [src])[1..] == srcs[1..] + [src];
      PreloadRequestsAppend(s, srcs[1..], src);
    }
  }
}
