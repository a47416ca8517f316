/** The background-music view model and the abstract media player it drives. */
module Music {

  /** The states of the media player this app can reach. */
  datatype Status = Prepared | Playing | Paused | Released

  /** `mediaPlayer`: absent until background initialisation assigns a created player. */
  datatype Player = Absent | Present(status: Status, looping: bool)

  /** A call on the platform media player; `Create` stands for a successful `MediaPlayer.create`. */
  datatype Call = Create | SetLooping(on: bool) | Start | Pause | Release

  /**
   * The player after one call. Only `Create` brings a player into being; every other call
   * needs one. A released player stays released.
   */
  function AfterCall(p: Player, c: Call): Player
  {
    if c.Create? then Present(Prepared, false)
    else match p
      case Absent => Absent
      case Present(s, l) =>
        if c.SetLooping? then Present(s, c.on)
        else if c.Start? then (if s == Released then p else Present(Playing, l))
        else if c.Pause? then (if s == Playing then Present(Paused, l) else p)
        else Present(Released, l)
  }

  /** The calls a `mediaPlayer?.…` statement issues: one if the player exists, none otherwise. */
  function Issued(p: Player, c: Call): seq<Call>
  {
    if p.Present? then [c] else []
  }

  /** The player after the calls `cs`, oldest first, starting with none. */
  function Replay(cs: seq<Call>): Player
    decreases |cs|
  {
    if cs == [] then Absent else AfterCall(Replay(cs[..|cs| - 1]), cs[|cs| - 1])
  }

  /** A `?.` call keeps the call log and the player in step: replaying what it issued gives its effect. */
  lemma IssuedKeepsInStep(cs: seq<Call>, c: Call)
    requires !c.Create?
    ensures Replay(cs + Issued(Replay(cs), c)) == AfterCall(Replay(cs), c)
  {
    if Replay(cs).Present? {
      assert (cs + [c])[..|cs|] == cs;
    } else {
      assert cs + [] == cs;
    }
  }

  /** While the player is absent, no call but creation is issued or changes anything. */
  lemma AbsentIsInert(c: Call)
    requires !c.Create?
    ensures Issued(Absent, c) == [] && AfterCall(Absent, c) == Absent
  {
  }

  /** Initialisation leaves the player present, looping and playing. */
  lemma InitialisedPlays()
    ensures Replay([Create, SetLooping(true), Start]) == Present(Playing, true)
  {
    assert [Create, SetLooping(true), Start][..2] == [Create, SetLooping(true)];
    assert [Create, SetLooping(true)][..1] == [Create];
  }

  /** Pause followed by resume returns an unreleased player to playing, keeping its looping flag. */
  lemma PauseThenResume(p: Player)
    requires p.Present? && p.status != Released
    ensures AfterCall(AfterCall(p, Pause), Start) == Present(Playing, p.looping)
  {
  }

  /** Several calls replayed after a prefix act on the prefix's player. */
  lemma {:induction false} ReplayAppend(cs: seq<Call>, more: seq<Call>, c: Call)
    ensures Replay(cs + more + [c]) == AfterCall(Replay(cs + more), c)
  {
    assert (cs + more + [c])[..|cs + more + [c]| - 1] == cs + more;
  }

  /** One call other than `Create` leaves a released player released. */
  lemma ReleaseAbsorbs(p: Player, c: Call)
    requires p.Present? && p.status == Released && !c.Create?
    ensures AfterCall(p, c).Present? && AfterCall(p, c).status == Released
  {
  }

  /** Without a new `Create`, a released player stays released whatever else is called. */
  lemma {:induction false} ReleasedStaysReleased(cs: seq<Call>, more: seq<Call>)
    requires Replay(cs).Present? && Replay(cs).status == Released
    requires Create !in more
    ensures Replay(cs + more).Present? && Replay(cs + more).status == Released
    decreases |more|
  {
    if more != [] {
      var front := more[..|more| - 1];
      assert more == front + [more[|more| - 1]];
      assert cs + more == cs + front + [more[|more| - 1]];
      assert more[|more| - 1] in more;
      assert Create !in front by {
        assert forall c :: c in front ==> c in more;
      }
      ReleasedStaysReleased(cs, front);
      ReplayAppend(cs, front, more[|more| - 1]);
      ReleaseAbsorbs(Replay(cs + front), more[|more| - 1]);
    } else {
      assert cs + more == cs;
    }
  }

  /** Pause, resume and release never change whether the player loops. */
  lemma {:induction false} LoopingSurvives(cs: seq<Call>, more: seq<Call>)
    requires Replay(cs).Present?
    requires forall c :: c in more ==> c == Start || c == Pause || c == Release
    ensures Replay(cs + more).Present? && Replay(cs + more).looping == Replay(cs).looping
    decreases |more|
  {
    if more != [] {
      var front := more[..|more| - 1];
      assert more == front + [more[|more| - 1]];
      assert cs + more == cs + front + [more[|more| - 1]];
      assert more[|more| - 1] in more;
      assert forall c :: c in front ==> c in more;
      LoopingSurvives(cs, front);
      ReplayAppend(cs, front, more[|more| - 1]);
    } else {
      assert cs + more == cs;
    }
  }

  /** Nothing guards a released player: releasing again, or resuming, still reaches the platform. */
  lemma NoGuardAfterRelease(p: Player)
    requires p.Present?
    ensures Issued(AfterCall(p, Release), Release) == [Release]
    ensures Issued(AfterCall(p, Release), Start) == [Start]
    ensures AfterCall(AfterCall(p, Release), Start).status == Released
  {
  }

  /**
   * `MusicViewModel`: owns the optional player of the one background track and the
   * record of every call issued on it.
   */
  class MusicViewModel {
    var player: Player
    /** Every call that reached the platform player, oldest first. */
    ghost var calls: seq<Call>
    /** Whether the background initialisation has run. */
    ghost var initialised: bool

    ghost predicate Valid()
      reads this
    {
      player == Replay(calls) &&
      (!initialised ==> calls == [])
    }

    /** The view model starts without a player; initialisation is launched in the background. */
    constructor ()
      ensures Valid() && !initialised
      ensures player == Absent && calls == []
    {
      player := Absent;
      calls := [];
      initialised := false;
    }

    /**
     * The body of the background initialisation: create the player (which the platform may
     * decline), set it looping and start it, each through `?.`.
     */
    method Initialise(created: bool)
      requires Valid() && !initialised
      modifies this
      ensures Valid() && initialised
      ensures created ==> player == Present(Playing, true) && calls == [Create, SetLooping(true), Start]
      ensures !created ==> player == Absent && calls == []
    {
      initialised := true;
      player := if created then Present(Prepared, false) else Absent;
      if created {
        calls := calls + [Create];
      }
      Issue(SetLooping(true));
      Issue(Start);
      if created {
        InitialisedPlays();
      }
    }

    /** `mediaPlayer?.c()`: issue `c` when the player exists, do nothing otherwise. */
    method Issue(c: Call)
      requires Valid() && !c.Create?
      modifies this
      ensures Valid() && initialised == old(initialised)
      ensures player == AfterCall(old(player), c)
      ensures calls == old(calls) + Issued(old(player), c)
    {
      IssuedKeepsInStep(calls, c);
      if player.Present? {
        player := AfterCall(player, c);
        calls := calls + [c];
      }
    }

    /** `pauseMusic`. */
    method PauseMusic()
      requires Valid()
      modifies this
      ensures Valid() && initialised == old(initialised)
      ensures player == AfterCall(old(player), Pause)
      ensures calls == old(calls) + Issued(old(player), Pause)
    {
      Issue(Pause);
    }

    /** `resumeMusic`. */
    method ResumeMusic()
      requires Valid()
      modifies this
      ensures Valid() && initialised == old(initialised)
      ensures player == AfterCall(old(player), Start)
      ensures calls == old(calls) + Issued(old(player), Start)
    {
      Issue(Start);
    }

    /** `onCleared`: release the player if there is one, without checking whether it already was. */
    method OnCleared()
      requires Valid()
      modifies this
      ensures Valid() && initialised == old(initialised)
      ensures player == AfterCall(old(player), Release)
      ensures calls == old(calls) + Issued(old(player), Release)
    {
      Issue(Release);
    }
  }
}
