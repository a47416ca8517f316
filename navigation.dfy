/** The three top-level screens and the four navigation callbacks wired between them. */
module Navigation {

  /** `currentScreen`, as a closed set instead of the strings "cover", "gallery" and "videoGallery". */
  datatype Screen = Cover | Gallery | VideoGallery

  /** The navigation callbacks the screens offer. */
  datatype Action =
    | OpenGallery        // the cover's gallery button
    | OpenVideoGallery   // the cover's video button
    | BackFromGallery    // the photo gallery's "Back"
    | BackFromVideos     // the video gallery's "Back"

  /** The screen whose layout offers the callback. */
  function From(a: Action): Screen
  {
    match a
    case OpenGallery => Cover
    case OpenVideoGallery => Cover
    case BackFromGallery => Gallery
    case BackFromVideos => VideoGallery
  }

  /** The screen the callback assigns to `currentScreen`. */
  function To(a: Action): Screen
  {
    match a
    case OpenGallery => Gallery
    case OpenVideoGallery => VideoGallery
    case BackFromGallery => Cover
    case BackFromVideos => Cover
  }

  /** Some callback leads from `s` to `t`. */
  ghost predicate Edge(s: Screen, t: Screen)
  {
    exists a :: From(a) == s && To(a) == t
  }

  /**
   * The transition relation is exactly: the cover leads to either gallery and either gallery
   * leads back to the cover. There is no self-loop and no edge between the two galleries.
   */
  lemma EdgeExactly(s: Screen, t: Screen)
    ensures Edge(s, t) <==> ((s == Cover) != (t == Cover))
  {
    if s == Cover && t == Gallery {
      assert From(OpenGallery) == s && To(OpenGallery) == t;
    } else if s == Cover && t == VideoGallery {
      assert From(OpenVideoGallery) == s && To(OpenVideoGallery) == t;
    } else if s == Gallery && t == Cover {
      assert From(BackFromGallery) == s && To(BackFromGallery) == t;
    } else if s == VideoGallery && t == Cover {
      assert From(BackFromVideos) == s && To(BackFromVideos) == t;
    }
  }

  /** A run of screens that starts at the cover and follows the edges. */
  ghost predicate Path(ss: seq<Screen>)
  {
    |ss| > 0 && ss[0] == Cover &&
    forall k :: 0 < k < |ss| ==> Edge(ss[k - 1], ss[k])
  }

  /** Following an action from the last screen of a path gives a longer path. */
  lemma PathExtend(ss: seq<Screen>, a: Action)
    requires Path(ss) && From(a) == ss[|ss| - 1]
    ensures Path(ss + [To(a)])
  {
    var ts := ss + [To(a)];
    forall k | 0 <= k < |ts| - 1
      ensures Edge(ts[k], ts[k + 1])
    {
      if k == |ss| - 1 {
        assert From(a) == ts[k] && To(a) == ts[k + 1];
      } else {
        assert ts[k] == ss[k] && ts[k + 1] == ss[k + 1];
      }
    }
  }

  /** Along any path the cover shows at every even step and a gallery at every odd one. */
  lemma {:induction false} PathAlternates(ss: seq<Screen>, k: nat)
    requires Path(ss) && k < |ss|
    ensures (ss[k] == Cover) <==> k % 2 == 0
  {
    if k > 0 {
      PathAlternates(ss, k - 1);
      EdgeExactly(ss[k - 1], ss[k]);
    }
  }
}
