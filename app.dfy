/** `GaleriaApp`: the navigation state, the composed screen's gallery state and its music side effects. */
module Galeria {
  import CyclicIndex
  import opened Assets
  import opened Gallery
  import opened Navigation
  import opened Music

  /** What the app asked of its state and of the music view model, oldest first. */
  datatype Event = ScreenSet(screen: Screen) | PauseRequested | ResumeRequested

  /** The branch of the `when` currently in composition. */
  datatype Composition = NotComposed | Showing(branch: Screen)

  /** The screens `currentScreen` has held: the initial cover, then every assignment. */
  function Visited(events: seq<Event>): (ss: seq<Screen>)
    ensures |ss| > 0 && ss[0] == Cover
    decreases |events|
  {
    if events == [] then [Cover]
    else
      var last := events[|events| - 1];
      Visited(events[..|events| - 1]) + (if last.ScreenSet? then [last.screen] else [])
  }

  /** Recording a screen assignment appends that screen to the visited ones. */
  lemma VisitedAppend(events: seq<Event>, s: Screen)
    ensures Visited(events + [ScreenSet(s)]) == Visited(events) + [s]
  {
    assert (events + [ScreenSet(s)])[..|events|] == events;
  }

  /** Recording a music request leaves the visited screens as they were. */
  lemma VisitedIgnoresMusic(events: seq<Event>, e: Event)
    requires !e.ScreenSet?
    ensures Visited(events + [e]) == Visited(events)
  {
    assert (events + [e])[..|events|] == events;
    assert Visited(events) + [] == Visited(events);
  }

  class App {
    var screen: Screen
    var composed: Composition
    /** The photo gallery's cursor; meaningful while that branch is composed. */
    var photos: Cursor<Photo>
    /** The video gallery's cursor; meaningful while that branch is composed. */
    var videos: Cursor<Video>
    const music: MusicViewModel
    ghost var events: seq<Event>

    ghost predicate Valid()
      reads this, photos, videos, music
    {
      photos.Valid() && photos.items == Photos &&
      videos.Valid() && videos.items == Videos &&
      music.Valid() &&
      Path(Visited(events)) &&
      Visited(events)[|Visited(events)| - 1] == screen
    }

    /** The UI shows the branch of the current screen, so its buttons are the ones on offer. */
    ghost predicate Settled()
      reads this
    {
      composed == Showing(screen)
    }

    /** `remember { mutableStateOf("cover") }`, before the first composition. */
    constructor (music: MusicViewModel)
      requires music.Valid()
      ensures Valid() && this.music == music
      ensures screen == Cover && composed == NotComposed && events == []
      ensures music.player == old(music.player) && music.calls == old(music.calls)
    {
      this.music := music;
      screen := Cover;
      composed := NotComposed;
      photos := new Cursor(Photos);
      videos := new Cursor(Videos);
      events := [];
    }

    /**
     * A composition of `GaleriaApp`. Entering a gallery branch creates that gallery's
     * `remember`ed index afresh at 0; the cover and photo branches call `resumeMusic`
     * every time they are composed, the video branch makes no music call.
     */
    method Compose()
      requires Valid()
      modifies this, music
      ensures Valid() && Settled() && screen == old(screen)
      ensures screen == Gallery && old(composed) != Showing(Gallery) ==> fresh(photos) && photos.index == 0
      ensures screen == VideoGallery && old(composed) != Showing(VideoGallery) ==> fresh(videos) && videos.index == 0
      ensures screen != Gallery || old(composed) == Showing(Gallery) ==> photos == old(photos)
      ensures screen != VideoGallery || old(composed) == Showing(VideoGallery) ==> videos == old(videos)
      ensures music.initialised == old(music.initialised)
      ensures screen != VideoGallery ==>
        events == old(events) + [ResumeRequested] &&
        music.player == AfterCall(old(music.player), Start) &&
        music.calls == old(music.calls) + Issued(old(music.player), Start)
      ensures screen == VideoGallery ==>
        events == old(events) && music.player == old(music.player) && music.calls == old(music.calls)
    {
      EnterBranch();
      if screen != VideoGallery {
        RequestResume();
      }
    }

    /** `musicViewModel.resumeMusic()`, called from this composable. */
    method RequestResume()
      requires Valid()
      modifies this, music
      ensures Valid() && screen == old(screen) && composed == old(composed)
      ensures photos == old(photos) && videos == old(videos)
      ensures events == old(events) + [ResumeRequested]
      ensures music.initialised == old(music.initialised)
      ensures music.player == AfterCall(old(music.player), Start)
      ensures music.calls == old(music.calls) + Issued(old(music.player), Start)
    {
      VisitedIgnoresMusic(events, ResumeRequested);
      events := events + [ResumeRequested];
      assert Path(Visited(events)) && Visited(events)[|Visited(events)| - 1] == screen;
      music.ResumeMusic();
    }

    /** `musicViewModel.pauseMusic()`, called from this composable. */
    method RequestPause()
      requires Valid()
      modifies this, music
      ensures Valid() && screen == old(screen) && composed == old(composed)
      ensures photos == old(photos) && videos == old(videos)
      ensures events == old(events) + [PauseRequested]
      ensures music.initialised == old(music.initialised)
      ensures music.player == AfterCall(old(music.player), Pause)
      ensures music.calls == old(music.calls) + Issued(old(music.player), Pause)
    {
      VisitedIgnoresMusic(events, PauseRequested);
      events := events + [PauseRequested];
      assert Path(Visited(events)) && Visited(events)[|Visited(events)| - 1] == screen;
      music.PauseMusic();
    }

    /** Brings the current screen's branch into composition, creating a gallery's index on entry. */
    method EnterBranch()
      requires Valid()
      modifies this
      ensures Valid() && Settled() && screen == old(screen) && events == old(events)
      ensures screen == Gallery && old(composed) != Showing(Gallery) ==> fresh(photos) && photos.index == 0
      ensures screen == VideoGallery && old(composed) != Showing(VideoGallery) ==> fresh(videos) && videos.index == 0
      ensures screen != Gallery || old(composed) == Showing(Gallery) ==> photos == old(photos)
      ensures screen != VideoGallery || old(composed) == Showing(VideoGallery) ==> videos == old(videos)
    {
      if composed != Showing(screen) {
        if screen == Gallery {
          photos := new Cursor(Photos);
        } else if screen == VideoGallery {
          videos := new Cursor(Videos);
        }
        composed := Showing(screen);
      }
    }

    /** Records that `currentScreen` was assigned along one of the four edges. */
    method Navigate(a: Action)
      requires Valid() && From(a) == screen
      modifies this
      ensures Valid() && screen == To(a) && composed == old(composed)
      ensures events == old(events) + [ScreenSet(To(a))]
      ensures photos == old(photos) && videos == old(videos)
    {
      VisitedAppend(events, To(a));
      PathExtend(Visited(events), a);
      screen := To(a);
      events := events + [ScreenSet(To(a))];
    }

    /** The cover's gallery button: `currentScreen = "gallery"`. */
    method OpenGallery()
      requires Valid() && Settled() && screen == Cover
      modifies this
      ensures Valid() && screen == Gallery && composed == old(composed)
      ensures events == old(events) + [ScreenSet(Gallery)]
      ensures music.player == old(music.player) && music.calls == old(music.calls)
      ensures photos == old(photos) && videos == old(videos)
    {
      Navigate(Action.OpenGallery);
    }

    /** The cover's video button: `currentScreen = "videoGallery"`, then `pauseMusic()`. */
    method OpenVideoGallery()
      requires Valid() && Settled() && screen == Cover
      modifies this, music
      ensures Valid() && screen == VideoGallery && composed == old(composed)
      ensures events == old(events) + [ScreenSet(VideoGallery), PauseRequested]
      ensures music.player == AfterCall(old(music.player), Pause)
      ensures music.calls == old(music.calls) + Issued(old(music.player), Pause)
      ensures music.initialised == old(music.initialised)
      ensures photos == old(photos) && videos == old(videos)
    {
      Navigate(Action.OpenVideoGallery);
      RequestPause();
    }

    /** The photo gallery's "Back": `currentScreen = "cover"`. */
    method BackFromGallery()
      requires Valid() && Settled() && screen == Gallery
      modifies this
      ensures Valid() && screen == Cover && composed == old(composed)
      ensures events == old(events) + [ScreenSet(Cover)]
      ensures music.player == old(music.player) && music.calls == old(music.calls)
      ensures photos == old(photos) && videos == old(videos)
    {
      Navigate(Action.BackFromGallery);
    }

    /** The video gallery's "Back": `currentScreen = "cover"`, then `resumeMusic()`. */
    method BackFromVideos()
      requires Valid() && Settled() && screen == VideoGallery
      modifies this, music
      ensures Valid() && screen == Cover && composed == old(composed)
      ensures events == old(events) + [ScreenSet(Cover), ResumeRequested]
      ensures music.player == AfterCall(old(music.player), Start)
      ensures music.calls == old(music.calls) + Issued(old(music.player), Start)
      ensures music.initialised == old(music.initialised)
      ensures photos == old(photos) && videos == old(videos)
    {
      Navigate(Action.BackFromVideos);
      RequestResume();
    }

    /** The photo gallery's "Previous". */
    method PreviousPhoto()
      requires Valid() && Settled() && screen == Gallery
      modifies photos
      ensures Valid()
      ensures photos.index == CyclicIndex.Previous(old(photos.index), |Photos|)
      ensures videos.index == old(videos.index)
    {
      photos.Previous();
    }

    /** The photo gallery's "Next". */
    method NextPhoto()
      requires Valid() && Settled() && screen == Gallery
      modifies photos
      ensures Valid()
      ensures photos.index == CyclicIndex.Next(old(photos.index), |Photos|)
      ensures videos.index == old(videos.index)
    {
      photos.Next();
    }

    /** The video gallery's "Previous". */
    method PreviousVideo()
      requires Valid() && Settled() && screen == VideoGallery
      modifies videos
      ensures Valid()
      ensures videos.index == CyclicIndex.Previous(old(videos.index), |Videos|)
      ensures photos.index == old(photos.index)
    {
      videos.Previous();
    }

    /** The video gallery's "Next". */
    method NextVideo()
      requires Valid() && Settled() && screen == VideoGallery
      modifies videos
      ensures Valid()
      ensures videos.index == CyclicIndex.Next(old(videos.index), |Videos|)
      ensures photos.index == old(photos.index)
    {
      videos.Next();
    }

    /** The photo on show: `images[indice]`, always an element of the list. */
    function ShownPhoto(): (p: Photo)
      reads this, photos, videos, music
      requires Valid()
      ensures p in Photos
    {
      photos.Current()
    }
  }

  /** Along the screens of any session, the cover sits between any two gallery visits. */
  lemma CoverBetweenGalleries(events: seq<Event>, k: nat)
    requires Path(Visited(events)) && k + 1 < |Visited(events)|
    ensures Visited(events)[k] == Cover || Visited(events)[k + 1] == Cover
  {
    PathAlternates(Visited(events), k);
    PathAlternates(Visited(events), k + 1);
  }

  /** A visit to the video gallery pauses playing music, and coming back plays it again. */
  method VisitVideos(app: App)
    requires app.Valid() && app.Settled() && app.screen == Cover
    requires app.music.player == Present(Playing, true)
    modifies app, app.music
    ensures app.Valid() && app.Settled() && app.screen == Cover
    ensures app.music.player == Present(Playing, true)
    ensures app.music.calls == old(app.music.calls) + [Pause, Start, Start]
  {
    app.OpenVideoGallery();
    app.Compose();
    assert app.screen == VideoGallery && app.music.player == Present(Paused, true);
    app.BackFromVideos();
    app.Compose();
  }

  /** Leaving the photo gallery forgets its position: coming back starts at the first photo. */
  method RevisitPhotos(app: App)
    requires app.Valid() && app.Settled() && app.screen == Gallery
    modifies app, app.music
    ensures app.Valid() && app.Settled() && app.screen == Gallery
    ensures fresh(app.photos) && app.photos.index == 0
  {
    app.BackFromGallery();
    app.Compose();
    app.OpenGallery();
    app.Compose();
  }

  /** A session: the music starts before the first frame, and the user visits the videos and comes back. */
  method SessionScenario()
  {
    var vm := new MusicViewModel();
    vm.Initialise(true);
    var app := new App(vm);
    app.Compose();
    VisitVideos(app);
    assert vm.calls == [Create, SetLooping(true), Start, Start, Pause, Start, Start];
  }

  /** A pause issued before the background initialisation finishes is lost: the videos play with music. */
  method EarlyPauseScenario()
  {
    var vm := new MusicViewModel();
    var app := new App(vm);
    app.Compose();
    app.OpenVideoGallery();
    app.Compose();
    assert vm.calls == [];
    vm.Initialise(true);
    assert app.screen == VideoGallery && vm.player == Present(Playing, true);
  }

  /** Three items A, B, C: Next three times wraps to A, and Previous from there goes to C. */
  method CursorScenario()
  {
    var c := new Cursor(['A', 'B', 'C']);
    assert c.Current() == 'A';
    c.Next();
    assert c.Current() == 'B';
    c.Next();
    assert c.Current() == 'C';
    c.Next();
    assert c.index == 0 && c.Current() == 'A';
    c.Previous();
    assert c.index == 2 && c.Current() == 'C';
  }
}
