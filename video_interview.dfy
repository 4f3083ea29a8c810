/** The interview screen: started/muted/camera-off flags and the active tab,
    the 30-minute countdown shown while the interview runs, and the effect
    that asks the browser for camera and microphone whenever one of the three
    flags changes and stops the previous stream's tracks on its cleanup. */
module VideoInterview {
  import opened Strings
  import InterviewTimer

  datatype Kind = Microphone | Camera

  /** A media track: its kind, whether it is enabled (muted tracks stay
      live), and whether it is still live (holding the device). */
  datatype Track = Track(kind: Kind, enabled: bool, live: bool)

  /** The `getUserMedia` constraints of one request. */
  datatype Constraints = Constraints(video: bool, audio: bool)

  const VideoTab := "video"
  const QuestionnaireTab := "questionnaire"
  /** `duration={30 * 60}` */
  const InterviewLength := 30 * 60

  /** The tracks once every track of `stream` of kind `kind` has `enabled`;
      enabling or disabling a track never releases its device. */
  function Enable(tracks: map<nat, Track>, stream: seq<nat>, kind: Kind, enabled: bool): (r: map<nat, Track>)
    ensures r.Keys == tracks.Keys
    ensures forall t :: t in r ==> r[t].live == tracks[t].live && r[t].kind == tracks[t].kind
  {
    map t | t in tracks :: if t in stream && tracks[t].kind == kind then tracks[t].(enabled := enabled) else tracks[t]
  }

  /** The tracks once every track of `stream` has been stopped. */
  function Stop(tracks: map<nat, Track>, stream: seq<nat>): (r: map<nat, Track>)
  {
    map t | t in tracks :: if t in stream then tracks[t].(live := false) else tracks[t]
  }

  /** `stream.getAudioTracks().forEach((track) => track.enabled = flag)` and
      its video twin: every track of the stream of kind `kind` gets
      `enabled`; nothing else changes. */
  method SetEnabled(tracks: map<nat, Track>, stream: seq<nat>, kind: Kind, enabled: bool)
    returns (result: map<nat, Track>)
    ensures result == Enable(tracks, stream, kind, enabled)
  {
    result := tracks;
    var i := 0;
    while i < |stream|
      invariant 0 <= i <= |stream|
      invariant result.Keys == tracks.Keys
      invariant forall t :: t in tracks ==>
        result[t] == if t in stream[..i] && tracks[t].kind == kind then tracks[t].(enabled := enabled) else tracks[t]
    {
      var id := stream[i];
      assert stream[..i + 1] == stream[..i] + [id];
      if id in result && result[id].kind == kind {
        result := result[id := result[id].(enabled := enabled)];
      }
      i := i + 1;
    }
    assert stream[..i] == stream;
  }

  /** `stream.getTracks().forEach((track) => track.stop())` */
  method StopAll(tracks: map<nat, Track>, stream: seq<nat>) returns (result: map<nat, Track>)
    ensures result == Stop(tracks, stream)
  {
    result := tracks;
    var i := 0;
    while i < |stream|
      invariant 0 <= i <= |stream|
      invariant result.Keys == tracks.Keys
      invariant forall t :: t in tracks ==> result[t] == if t in stream[..i] then tracks[t].(live := false) else tracks[t]
    {
      var id := stream[i];
      assert stream[..i + 1] == stream[..i] + [id];
      if id in result {
        result := result[id := result[id].(live := false)];
      }
      i := i + 1;
    }
    assert stream[..i] == stream;
  }

  /** The media effect's cleanup: the stream `stopped` names, if any, is
      stopped; every other track keeps its liveness. */
  function Cleanup(tracks: map<nat, Track>, streams: map<nat, seq<nat>>, stopped: Option<nat>): (r: map<nat, Track>)
  {
    if stopped.Some? && stopped.value in streams then Stop(tracks, streams[stopped.value]) else tracks
  }

  /** The tracks of kind `kind` in the stream on screen, if any, get
      `enabled`. */
  function OnScreen(tracks: map<nat, Track>, streams: map<nat, seq<nat>>, shown: Option<nat>, kind: Kind, enabled: bool): (r: map<nat, Track>)
  {
    if shown.Some? && shown.value in streams then Enable(tracks, streams[shown.value], kind, enabled) else tracks
  }

  /** The track ids of a granted stream: a microphone track numbered `next`
      when audio was asked for, a camera track numbered `next + 1` when video
      was. */
  function NewStream(c: Constraints, next: nat): (ids: seq<nat>)
    ensures forall t :: t in ids ==> next <= t < next + 2
    ensures c.audio <==> next in ids
    ensures c.video <==> next + 1 in ids
  {
    (if c.audio then [next] else []) + (if c.video then [next + 1] else [])
  }

  /** The tracks of that stream, all enabled; `live` tells whether they keep
      the devices. */
  function NewTracks(tracks: map<nat, Track>, c: Constraints, next: nat, live: bool): (r: map<nat, Track>)
    ensures r.Keys == tracks.Keys + set t | t in NewStream(c, next)
    ensures forall t :: t in tracks && t !in NewStream(c, next) ==> r[t] == tracks[t]
    ensures forall t :: t in NewStream(c, next) ==> r[t].live == live
  {
    var withAudio := if c.audio then tracks[next := Track(Microphone, true, live)] else tracks;
    if c.video then withAudio[next + 1 := Track(Camera, true, live)] else withAudio
  }

  /** `getUserMedia` gives a stream when the user allows it and at least one
      device is asked for; asking for neither is rejected. */
  predicate Grants(c: Constraints, granted: bool)
  {
    granted && (c.video || c.audio)
  }

  /** One mounted `VideoInterview`. Streams are named by the request that
      produced them; the local `<video>` element exists only while the
      interview runs, so `srcObject` is `None` otherwise. */
  class Interview {
    var isStarted: bool
    var isMuted: bool
    var isVideoOff: bool
    var activeTab: string
    /** The countdown, mounted while the interview runs. */
    var timer: InterviewTimer.Countdown?
    /** Every track the browser handed out. */
    var tracks: map<nat, Track>
    var nextTrack: nat
    /** The stream each granted request produced. */
    var streams: map<nat, seq<nat>>
    /** Every `getUserMedia` call, in order. */
    var requests: seq<Constraints>
    var settled: set<nat>
    /** The request made by the effect run not yet cleaned up, if any. */
    var effectRequest: Option<nat>
    /** That run's `localStream`, once its request has come back. */
    var captured: Option<nat>
    /** The stream shown in the local `<video>` element. */
    var srcObject: Option<nat>

    /** Every stream belongs to a settled request and names booked tracks;
        fresh track ids lie above every booked one. */
    ghost predicate Books()
      reads this`streams, this`settled, this`tracks, this`requests, this`nextTrack
    {
      && (forall r :: r in streams ==> r in settled && forall t :: t in streams[r] ==> t in tracks)
      && (forall r :: r in settled ==> r < |requests|)
      && (forall t :: t in tracks ==> t < nextTrack)
    }

    /** The live run's request is the latest one; what it captured and what
        is on screen are granted streams. */
    ghost predicate Links()
      reads this`requests, this`streams, this`effectRequest, this`captured, this`srcObject, this`isStarted
    {
      && (effectRequest.Some? ==> |requests| > 0 && effectRequest.value == |requests| - 1)
      && (captured.Some? ==> effectRequest == captured && captured.value in streams)
      && (srcObject.Some? ==> isStarted && srcObject.value in streams)
    }

    /** Bookkeeping that holds whatever the order of events. */
    ghost predicate Structure()
      reads this`streams, this`settled, this`tracks, this`requests, this`nextTrack, this`effectRequest, this`captured, this`srcObject, this`isStarted
    {
      Books() && Links()
    }

    /** The countdown is mounted exactly while the interview runs. */
    ghost predicate TimerMounted()
      reads this`isStarted, this`timer, timer
    {
      && (isStarted <==> timer != null)
      && (timer != null ==> timer.Valid() && timer.mounted && timer.duration == InterviewLength)
    }

    /** The live effect run asked for what the flags say now. */
    ghost predicate EffectCurrent()
      reads this`effectRequest, this`isStarted, this`requests, this`isVideoOff, this`isMuted
    {
      && (effectRequest.Some? <==> isStarted)
      && (effectRequest.Some? ==>
            effectRequest.value < |requests| && requests[effectRequest.value] == Constraints(!isVideoOff, !isMuted))
    }

    /** No device is held by a track nobody will stop: every live track
        belongs to the stream the live effect run has captured, which that
        run's cleanup stops. */
    ghost predicate NoLeak()
      reads this`tracks, this`captured, this`streams
    {
      forall t :: t in tracks && tracks[t].live ==>
        captured.Some? && captured.value in streams && t in streams[captured.value]
    }

    /** What every event keeps, leak or no leak. */
    ghost predicate Consistent()
      reads this, timer
    {
      Structure() && TimerMounted() && EffectCurrent()
    }

    /** The invariant of the corrected program. */
    ghost predicate Valid()
      reads this, timer
    {
      Consistent() && NoLeak()
    }

    /** Not started, not muted, camera on, on the video tab; the first run of
        the media effect returns at once. */
    constructor ()
      ensures Valid()
      ensures !isStarted && !isMuted && !isVideoOff && activeTab == VideoTab
      ensures requests == [] && tracks == map[] && streams == map[] && settled == {} && nextTrack == 0
    {
      isStarted, isMuted, isVideoOff := false, false, false;
      activeTab := VideoTab;
      timer := null;
      tracks, nextTrack, streams := map[], 0, map[];
      requests, settled := [], {};
      effectRequest, captured, srcObject := None, None, None;
    }

    /** The media effect runs again: the previous run's cleanup stops the
        tracks of the stream it captured, then, while the interview runs, a
        new request goes out with `video = !isVideoOff, audio = !isMuted`. */
    method RunMediaEffect()
      requires Structure()
      modifies this`tracks, this`requests, this`effectRequest, this`captured
      ensures Structure() && EffectCurrent()
      ensures captured == None
      ensures tracks == Cleanup(old(tracks), old(streams), old(captured))
      ensures old(NoLeak()) ==> NoLeak() && forall t :: t in tracks ==> !tracks[t].live
      ensures requests == old(requests) + if isStarted then [Constraints(!isVideoOff, !isMuted)] else []
    {
      if captured.Some? {
        tracks := StopAll(tracks, streams[captured.value]);
      }
      captured := None;
      effectRequest := None;
      if isStarted {
        requests := requests + [Constraints(!isVideoOff, !isMuted)];
        effectRequest := Some(|requests| - 1);
      }
    }

    /** `startInterview`: the countdown mounts with thirty minutes and the
        media effect asks for the devices. The start button is shown only
        before the interview runs; otherwise the state does not change. */
    method Start()
      requires Consistent()
      modifies this`isStarted, this`timer, this`tracks, this`requests, this`effectRequest, this`captured
      ensures Consistent() && isStarted
      ensures old(NoLeak()) ==> NoLeak()
      ensures tracks == old(tracks) && (!old(isStarted) ==> captured == None)
      ensures old(isStarted) ==> captured == old(captured)
      ensures isMuted == old(isMuted) && isVideoOff == old(isVideoOff) && activeTab == old(activeTab)
      ensures !old(isStarted) ==>
        && fresh(timer) && timer.timeLeft == InterviewLength && timer.completions == 0
        && requests == old(requests) + [Constraints(!isVideoOff, !isMuted)]
      ensures old(isStarted) ==> requests == old(requests) && timer == old(timer)
      ensures settled == old(settled) && streams == old(streams) && nextTrack == old(nextTrack)
    {
      if !isStarted {
        isStarted := true;
        timer := new InterviewTimer.Countdown(InterviewLength);
        RunMediaEffect();
      }
    }

    /** `endInterview`: the interview stops (the countdown and the local
        video unmount, the media effect's cleanup stops the captured stream)
        and the questionnaire tab opens. */
    method End()
      requires Consistent()
      modifies this`isStarted, this`timer, this`srcObject, this`activeTab, this`tracks, this`requests, this`effectRequest, this`captured, timer
      ensures Consistent() && !isStarted && activeTab == QuestionnaireTab
      ensures isMuted == old(isMuted) && isVideoOff == old(isVideoOff)
      ensures requests == old(requests) && srcObject == None && captured == None
      ensures tracks == Cleanup(old(tracks), old(streams), old(captured))
      ensures old(NoLeak()) ==> NoLeak() && forall t :: t in tracks ==> !tracks[t].live
      ensures old(isStarted) ==> old(timer).timeLeft == old(timer.timeLeft) && !old(timer).mounted
      ensures !old(isStarted) ==> tracks == old(tracks)
      ensures settled == old(settled) && streams == old(streams) && nextTrack == old(nextTrack)
    {
      if isStarted {
        timer.Unmount();
        timer := null;
        isStarted := false;
        srcObject := None;
        activeTab := QuestionnaireTab;
        RunMediaEffect();
      } else {
        activeTab := QuestionnaireTab;
      }
    }

    /** The tab list. */
    method SetActiveTab(tab: string)
      requires Consistent()
      modifies this`activeTab
      ensures Consistent() && activeTab == tab
      ensures NoLeak() == old(NoLeak())
    {
      activeTab := tab;
    }

    /** The tracks of `kind` in the stream on screen, if any, get `enabled`;
        no track changes its liveness. */
    method EnableOnScreen(kind: Kind, enabled: bool)
      requires Structure()
      modifies this`tracks
      ensures Structure()
      ensures tracks == OnScreen(old(tracks), streams, srcObject, kind, enabled)
      ensures NoLeak() == old(NoLeak())
    {
      if srcObject.Some? {
        tracks := SetEnabled(tracks, streams[srcObject.value], kind, enabled);
      }
    }

    /** `toggleMute`: the flag flips; the microphone tracks of the stream on
        screen get `enabled = ` the old flag, i.e. enabled exactly when no
        longer muted; then the media effect runs again for the new flag. */
    method ToggleMute()
      requires Consistent()
      modifies this`isMuted, this`tracks, this`requests, this`effectRequest, this`captured
      ensures Consistent()
      ensures old(NoLeak()) ==> NoLeak()
      ensures captured == None
      ensures isMuted == !old(isMuted) && isVideoOff == old(isVideoOff) && isStarted == old(isStarted)
      ensures activeTab == old(activeTab) && timer == old(timer) && srcObject == old(srcObject)
      ensures tracks == Cleanup(OnScreen(old(tracks), streams, srcObject, Microphone, !isMuted), streams, old(captured))
      ensures requests == old(requests) + if isStarted then [Constraints(!isVideoOff, !isMuted)] else []
    {
      var wasMuted := isMuted;
      isMuted := !isMuted;
      EnableOnScreen(Microphone, wasMuted);
      RunMediaEffect();
    }

    /** `toggleVideo`: the same for the camera flag and the camera tracks. */
    method ToggleVideo()
      requires Consistent()
      modifies this`isVideoOff, this`tracks, this`requests, this`effectRequest, this`captured
      ensures Consistent()
      ensures old(NoLeak()) ==> NoLeak()
      ensures captured == None
      ensures isVideoOff == !old(isVideoOff) && isMuted == old(isMuted) && isStarted == old(isStarted)
      ensures activeTab == old(activeTab) && timer == old(timer) && srcObject == old(srcObject)
      ensures tracks == Cleanup(OnScreen(old(tracks), streams, srcObject, Camera, !isVideoOff), streams, old(captured))
      ensures requests == old(requests) + if isStarted then [Constraints(!isVideoOff, !isMuted)] else []
    {
      var wasOff := isVideoOff;
      isVideoOff := !isVideoOff;
      EnableOnScreen(Camera, wasOff);
      RunMediaEffect();
    }

    /** Books the stream request `r` was granted: fresh track ids, all
        enabled, live or already stopped as `live` says. */
    method RecordStream(r: nat, live: bool)
      requires Structure() && r < |requests| && r !in settled
      modifies this`tracks, this`streams, this`nextTrack, this`settled
      ensures Structure()
      ensures settled == old(settled) + {r} && nextTrack == old(nextTrack) + 2
      ensures streams == old(streams)[r := NewStream(requests[r], old(nextTrack))]
      ensures tracks == NewTracks(old(tracks), requests[r], old(nextTrack), live)
      ensures forall t :: t in old(tracks) ==> t !in NewStream(requests[r], old(nextTrack)) && tracks[t] == old(tracks)[t]
      ensures forall t :: t in tracks && tracks[t].live ==> (t in old(tracks) && old(tracks)[t].live) || (live && t in streams[r])
    {
      var ids := NewStream(requests[r], nextTrack);
      tracks := NewTracks(tracks, requests[r], nextTrack, live);
      streams := streams[r := ids];
      nextTrack := nextTrack + 2;
      settled := settled + {r};
    }

    /** The granted stream of request `r` arrives: it is booked, put on
        screen when `show`, and becomes the live run's `localStream` when
        `hold`. */
    method Arrive(r: nat, live: bool, show: bool, hold: bool)
      requires Structure() && r < |requests| && r !in settled
      requires show ==> isStarted
      requires hold ==> effectRequest == Some(r)
      modifies this`tracks, this`streams, this`nextTrack, this`settled, this`srcObject, this`captured
      ensures Structure()
      ensures settled == old(settled) + {r} && nextTrack == old(nextTrack) + 2
      ensures streams == old(streams)[r := NewStream(requests[r], old(nextTrack))]
      ensures tracks == NewTracks(old(tracks), requests[r], old(nextTrack), live)
      ensures forall t :: t in tracks && tracks[t].live ==> (t in old(tracks) && old(tracks)[t].live) || (live && t in streams[r])
      ensures srcObject == (if show then Some(r) else old(srcObject))
      ensures captured == (if hold then Some(r) else old(captured))
    {
      RecordStream(r, live);
      if show {
        srcObject := Some(r);
      }
      if hold {
        captured := Some(r);
      }
    }

    /** Request `r` comes back as written: a granted stream is put on screen
        when the element exists and becomes `localStream` of the run that
        asked for it; a failure (a request for neither device included) is
        only logged. When that run has already been cleaned up, nobody will
        ever stop the stream. */
    method SettleAsWritten(r: nat, granted: bool)
      requires Consistent()
      requires r < |requests| && r !in settled
      modifies this`tracks, this`streams, this`nextTrack, this`settled, this`srcObject, this`captured
      ensures Consistent()
      ensures requests == old(requests) && effectRequest == old(effectRequest) && timer == old(timer)
      ensures Grants(requests[r], granted) ==>
        && settled == old(settled) + {r} && nextTrack == old(nextTrack) + 2
        && streams == old(streams)[r := NewStream(requests[r], old(nextTrack))]
        && tracks == NewTracks(old(tracks), requests[r], old(nextTrack), true)
      ensures Grants(requests[r], granted) ==>
        && srcObject == (if isStarted then Some(r) else old(srcObject))
        && captured == (if effectRequest == Some(r) then Some(r) else old(captured))
      ensures !Grants(requests[r], granted) ==>
        && settled == old(settled) + {r} && tracks == old(tracks) && streams == old(streams)
        && nextTrack == old(nextTrack)
        && srcObject == old(srcObject) && captured == old(captured)
      ensures isStarted == old(isStarted) && isMuted == old(isMuted) && isVideoOff == old(isVideoOff)
    {
      if Grants(requests[r], granted) {
        Arrive(r, true, isStarted, effectRequest == Some(r));
      } else {
        settled := settled + {r};
      }
    }

    /** Request `r` comes back, corrected: a stream whose run has already been
        cleaned up is stopped on arrival and not put on screen. */
    method Settle(r: nat, granted: bool)
      requires Valid()
      requires r < |requests| && r !in settled
      modifies this`tracks, this`streams, this`nextTrack, this`settled, this`srcObject, this`captured
      ensures Valid()
      ensures requests == old(requests) && effectRequest == old(effectRequest) && timer == old(timer)
      ensures Grants(requests[r], granted) ==>
        && settled == old(settled) + {r} && nextTrack == old(nextTrack) + 2
        && streams == old(streams)[r := NewStream(requests[r], old(nextTrack))]
        && tracks == NewTracks(old(tracks), requests[r], old(nextTrack), effectRequest == Some(r))
      ensures Grants(requests[r], granted) ==>
        && srcObject == (if effectRequest == Some(r) then Some(r) else old(srcObject))
        && captured == (if effectRequest == Some(r) then Some(r) else old(captured))
      ensures !Grants(requests[r], granted) ==>
        && settled == old(settled) + {r} && tracks == old(tracks) && streams == old(streams)
        && nextTrack == old(nextTrack)
        && srcObject == old(srcObject) && captured == old(captured)
      ensures isStarted == old(isStarted) && isMuted == old(isMuted) && isVideoOff == old(isVideoOff)
    {
      if Grants(requests[r], granted) {
        var current := effectRequest == Some(r);
        assert current ==> captured.None?;
        Arrive(r, current, current, current);
      } else {
        settled := settled + {r};
      }
    }

    /** One second of the countdown; when it reaches zero its `onComplete`,
        `endInterview`, runs. */
    method TimerTick()
      requires Consistent()
      modifies this`isStarted, this`timer, this`srcObject, this`activeTab, this`tracks, this`requests, this`effectRequest, this`captured, timer
      ensures Consistent()
      ensures old(NoLeak()) ==> NoLeak()
      ensures old(isStarted) && old(timer.timeLeft) == 1 ==> !isStarted && activeTab == QuestionnaireTab
      ensures old(isStarted) && old(timer.timeLeft) > 1 ==> isStarted && timer == old(timer) && timer.timeLeft == old(timer.timeLeft) - 1
      ensures !old(isStarted) ==> !isStarted && activeTab == old(activeTab)
      ensures old(isStarted) && old(timer.timeLeft) == 1 ==>
        && tracks == Cleanup(old(tracks), old(streams), old(captured))
        && captured == None && srcObject == None && requests == old(requests)
      ensures !(old(isStarted) && old(timer.timeLeft) == 1) ==>
        && tracks == old(tracks) && requests == old(requests) && captured == old(captured)
        && srcObject == old(srcObject) && activeTab == old(activeTab) && isStarted == old(isStarted)
      ensures settled == old(settled) && streams == old(streams) && nextTrack == old(nextTrack)
    {
      if timer != null {
        var before := timer.completions;
        timer.Tick();
        if timer.completions > before {
          End();
        }
      }
    }
  }

  /** The discrepancy, as written: the interview is started and ended before
      the browser answers; the stream then arrives, and no effect run holds
      it any more, so it stays live although the interview is over. */
  method LeakAsWritten() returns (leaked: bool)
    ensures leaked
  {
    var v := new Interview();
    v.Start();
    v.End();
    assert v.requests == [Constraints(true, true)];
    v.SettleAsWritten(0, true);
    assert !v.isStarted && v.captured == None && v.effectRequest == None;
    assert !v.NoLeak();
    leaked := 0 in v.tracks && v.tracks[0].live;
  }

  /** After such a leak the screen keeps working as written: the interview
      can be started, muted and ended again, and none of those cleanups
      stops the late stream, which no run ever captured. */
  method LeakOutlivesRestart() returns (leaked: bool)
    ensures leaked
  {
    var v := new Interview();
    v.Start();
    v.End();
    v.SettleAsWritten(0, true);
    assert 0 in v.tracks && v.tracks[0].live && 0 in v.streams[0];
    v.Start();
    v.ToggleMute();
    v.End();
    leaked := 0 in v.tracks && v.tracks[0].live;
  }

  /** The corrected settle on the same events: the late stream is stopped on
      arrival, and nothing holds a device once the interview is over. */
  method NoLeakCorrected() returns (leaked: bool)
    ensures !leaked
  {
    var v := new Interview();
    v.Start();
    v.End();
    v.Settle(0, true);
    assert 0 in v.tracks && v.NoLeak() && !v.isStarted;
    leaked := exists t :: t in v.tracks && v.tracks[t].live;
  }
}
