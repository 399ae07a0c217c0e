/**
 * The QuestSpoofer plugin: which quest and which task it picks, what it does for each kind of
 * task, the video-progress loop, and the store functions it overwrites for desktop play and
 * streaming and puts back once the heartbeat reports enough progress.  The clock, the REST
 * replies and the random jitter are parameters: a run of the video loop reads one value of
 * `maxAllowed` per iteration from `clock`, and `completed(k)` is whether the reply to the
 * k-th progress post carries `completed_at`.
 */
module QuestSpoofer {
  import opened Wrappers

  // ---------------------------------------------------------------- quest and task selection

  /** The quest the plugin never touches. */
  const ExcludedQuestId := "1248385850622869556"

  datatype UserStatus = UserStatus(enrolledAt: Option<string>, completedAt: Option<string>, progress: map<string, int>)

  /** A quest as the store holds it: `expiresAtMs` is `new Date(expiresAt).getTime()`, `None`
      for NaN; a task map sends a task name to its `target`. */
  datatype Quest = Quest(id: string, userStatus: Option<UserStatus>, expiresAtMs: Option<int>,
                         taskConfig: Option<map<string, int>>, taskConfigV2: map<string, int>,
                         applicationId: string)

  /** A string field read as a JavaScript condition: present and not empty. */
  predicate Truthy(s: Option<string>) {
    s.Some? && s.value != ""
  }

  /** The condition of the `find` over the store's quests. */
  predicate Eligible(q: Quest, nowMs: int) {
    && q.id != ExcludedQuestId
    && q.userStatus.Some? && Truthy(q.userStatus.value.enrolledAt)
    && !Truthy(q.userStatus.value.completedAt)
    && q.expiresAtMs.Some? && q.expiresAtMs.value > nowMs
  }

  /** The index of the first eligible quest, if any. */
  function FindQuest(quests: seq<Quest>, nowMs: int): (r: Option<nat>)
    ensures r.Some? ==> r.value < |quests| && Eligible(quests[r.value], nowMs)
    ensures r.Some? ==> forall j :: 0 <= j < r.value ==> !Eligible(quests[j], nowMs)
    ensures r.None? <==> forall j :: 0 <= j < |quests| ==> !Eligible(quests[j], nowMs)
  {
    if |quests| == 0 then None
    else if Eligible(quests[|quests| - 1], nowMs) && FindQuest(quests[..|quests| - 1], nowMs).None? then
      Some(|quests| - 1)
    else FindQuest(quests[..|quests| - 1], nowMs)
  }

  /** The tasks in the order they are preferred. */
  const TaskOrder: seq<string> := ["WATCH_VIDEO", "PLAY_ON_DESKTOP", "STREAM_ON_DESKTOP", "PLAY_ACTIVITY", "WATCH_VIDEO_ON_MOBILE"]

  /** `taskConfig ?? taskConfigV2`. */
  function Tasks(q: Quest): map<string, int> {
    if q.taskConfig.Some? then q.taskConfig.value else q.taskConfigV2
  }

  /** The first name of `order` that has a task in `tasks`. */
  function FirstTask(order: seq<string>, tasks: map<string, int>): (r: Option<string>)
    ensures r.Some? ==> r.value in tasks
    ensures r.Some? ==> (exists i :: 0 <= i < |order| && order[i] == r.value && forall j :: 0 <= j < i ==> order[j] !in tasks)
    ensures r.None? <==> forall i :: 0 <= i < |order| ==> order[i] !in tasks
  {
    if |order| == 0 then None
    else if order[0] in tasks then
      Some(order[0])
    else
      var r := FirstTask(order[1..], tasks);
      if r.Some? then
        var i :| 0 <= i < |order[1..]| && order[1..][i] == r.value
          && forall j :: 0 <= j < i ==> order[1..][j] !in tasks;
        assert order[i + 1] == r.value && forall j :: 0 <= j < i + 1 ==> order[j] !in tasks;
        r
      else r
  }

  /** The task the plugin spoofs. */
  function ChooseTask(q: Quest): Option<string> {
    FirstTask(TaskOrder, Tasks(q))
  }

  /** A task further down the order is chosen only when none before it is present. */
  lemma VideoPreferred(q: Quest)
    requires "WATCH_VIDEO" in Tasks(q)
    ensures ChooseTask(q) == Some("WATCH_VIDEO")
  {
  }

  /** The mobile video task is chosen only when none of the other four is present. */
  lemma MobileVideoLast(q: Quest)
    requires ChooseTask(q) == Some("WATCH_VIDEO_ON_MOBILE")
    ensures forall k :: 0 <= k < 4 ==> TaskOrder[k] !in Tasks(q)
  {
    var i :| 0 <= i < |TaskOrder| && TaskOrder[i] == "WATCH_VIDEO_ON_MOBILE"
      && forall j :: 0 <= j < i ==> TaskOrder[j] !in Tasks(q);
    assert TaskOrder[0] != "WATCH_VIDEO_ON_MOBILE" && TaskOrder[1] != "WATCH_VIDEO_ON_MOBILE";
    assert TaskOrder[2] != "WATCH_VIDEO_ON_MOBILE" && TaskOrder[3] != "WATCH_VIDEO_ON_MOBILE";
    assert i == 4;
  }

  /** `userStatus?.progress?.[task]?.value ?? 0`. */
  function StartProgress(q: Quest, task: string): (done: int)
    ensures q.userStatus.Some? && task in q.userStatus.value.progress ==> done == q.userStatus.value.progress[task]
    ensures !(q.userStatus.Some? && task in q.userStatus.value.progress) ==> done == 0
  {
    if q.userStatus.Some? && task in q.userStatus.value.progress then q.userStatus.value.progress[task] else 0
  }

  /** Progress is kept per task: recording progress `v` for one task gives `v` when that task
      starts and leaves every other task's starting point as it was. */
  lemma ProgressRecordedPerTask(q: Quest, us: UserStatus, recorded: string, v: int, task: string)
    requires q.userStatus == Some(us)
    ensures StartProgress(q.(userStatus := Some(us.(progress := us.progress[recorded := v]))), task)
         == (if task == recorded then v else StartProgress(q, task))
  {
  }

  // ---------------------------------------------------------------- the voice channel for activities

  /** The first guild whose `VOCAL` list is not empty, and its first channel. */
  function FirstVocal(guildVocals: seq<seq<string>>): (r: Option<string>)
    ensures r.Some? ==> (exists i ::
                           && 0 <= i < |guildVocals| && guildVocals[i] != [] && guildVocals[i][0] == r.value
                           && forall j :: 0 <= j < i ==> guildVocals[j] == [])
    ensures r.None? <==> forall i :: 0 <= i < |guildVocals| ==> guildVocals[i] == []
  {
    if |guildVocals| == 0 then None
    else if guildVocals[0] != [] then
      Some(guildVocals[0][0])
    else
      var r := FirstVocal(guildVocals[1..]);
      if r.Some? then
        var i :| 0 <= i < |guildVocals[1..]| && guildVocals[1..][i] != [] && guildVocals[1..][i][0] == r.value
          && forall j :: 0 <= j < i ==> guildVocals[1..][j] == [];
        assert guildVocals[i + 1][0] == r.value && forall j :: 0 <= j < i + 1 ==> guildVocals[j] == [];
        r
      else r
  }

  /** `vcId`: the first private channel's id, else the first guild voice channel. */
  function VoiceChannelId(privateChannels: seq<string>, guildVocals: seq<seq<string>>): (r: Option<string>)
    ensures privateChannels != [] ==> r == Some(privateChannels[0])
    ensures privateChannels == [] ==> r == FirstVocal(guildVocals)
  {
    if privateChannels != [] then Some(privateChannels[0]) else FirstVocal(guildVocals)
  }

  /** The channel used is one of the user's channels, and there is none only when the user has
      no private channel and no guild voice channel. */
  lemma VoiceChannelFromLists(privateChannels: seq<string>, guildVocals: seq<seq<string>>)
    ensures VoiceChannelId(privateChannels, guildVocals).Some? ==>
      || VoiceChannelId(privateChannels, guildVocals).value in privateChannels
      || exists i :: 0 <= i < |guildVocals| && VoiceChannelId(privateChannels, guildVocals).value in guildVocals[i]
    ensures VoiceChannelId(privateChannels, guildVocals).None? <==>
      privateChannels == [] && forall i :: 0 <= i < |guildVocals| ==> guildVocals[i] == []
  {
    var r := VoiceChannelId(privateChannels, guildVocals);
    if r.Some? && privateChannels == [] {
      var i :| 0 <= i < |guildVocals| && guildVocals[i] != [] && guildVocals[i][0] == r.value
        && forall j :: 0 <= j < i ==> guildVocals[j] == [];
      assert r.value in guildVocals[i];
    }
  }

  function StreamKey(vcId: string): string {
    "call:" + vcId + ":1"
  }

  /** The stream key names the channel between a fixed prefix and suffix. */
  lemma StreamKeyShape(vcId: string)
    ensures StreamKey(vcId)[..5] == "call:" && StreamKey(vcId)[|StreamKey(vcId)| - 2..] == ":1"
    ensures StreamKey(vcId)[5..|StreamKey(vcId)| - 2] == vcId
  {
  }

  // ---------------------------------------------------------------- what `start` does

  /** What `start` sets off (`NoTask`: the target lookup of an undefined task throws). */
  datatype Plan =
    | NoEligibleQuest
    | NoTask(questId: string)
    | SpoofVideo(questId: string, task: string, needed: int, start: int)
    | NotDesktop(questId: string, task: string)
    | SpoofDesktopPlay(questId: string, appId: string, needed: int)
    | SpoofStream(questId: string, appId: string, needed: int)
    | NoVoiceChannel(questId: string)
    | SpoofActivity(questId: string, streamKey: string, needed: int)

  predicate IsVideoTask(task: string) {
    task == "WATCH_VIDEO" || task == "WATCH_VIDEO_ON_MOBILE"
  }

  predicate NeedsDesktop(task: string) {
    task == "PLAY_ON_DESKTOP" || task == "STREAM_ON_DESKTOP"
  }

  /** `start()`, up to the point where it hands over to a loop or a listener. */
  function StartPlan(quests: seq<Quest>, nowMs: int, isDesktop: bool,
                     privateChannels: seq<string>, guildVocals: seq<seq<string>>): (p: Plan)
    ensures p == NoEligibleQuest <==> forall j :: 0 <= j < |quests| ==> !Eligible(quests[j], nowMs)
    ensures p != NoEligibleQuest ==> exists j :: 0 <= j < |quests| && Eligible(quests[j], nowMs) && quests[j].id == p.questId
    ensures p.NotDesktop? ==> !isDesktop && NeedsDesktop(p.task)
    ensures p.SpoofDesktopPlay? || p.SpoofStream? ==> isDesktop
    ensures p.SpoofVideo? ==> IsVideoTask(p.task)
    ensures p.SpoofActivity? ==> (exists id ::
                                   VoiceChannelId(privateChannels, guildVocals) == Some(id) && id != "" && p.streamKey == StreamKey(id))
    ensures p.NoVoiceChannel? ==> VoiceChannelId(privateChannels, guildVocals) in {None, Some("")}
    ensures FindQuest(quests, nowMs).Some? ==> PlanFor(quests[FindQuest(quests, nowMs).value], isDesktop, p)
  {
    match FindQuest(quests, nowMs)
    case None => NoEligibleQuest
    case Some(i) =>
      var q := quests[i];
      match ChooseTask(q)
      case None => NoTask(q.id)
      case Some(task) =>
        var needed := Tasks(q)[task];
        if IsVideoTask(task) then SpoofVideo(q.id, task, needed, StartProgress(q, task))
        else if NeedsDesktop(task) && !isDesktop then NotDesktop(q.id, task)
        else if task == "PLAY_ON_DESKTOP" then SpoofDesktopPlay(q.id, q.applicationId, needed)
        else if task == "STREAM_ON_DESKTOP" then SpoofStream(q.id, q.applicationId, needed)
        else
          var vcId := VoiceChannelId(privateChannels, guildVocals);
          if vcId.None? || vcId.value == "" then NoVoiceChannel(q.id)
          else SpoofActivity(q.id, StreamKey(vcId.value), needed)
  }

  /** What the plan for the chosen quest `q` is made of: its id, the task chosen for it, that
      task's target and recorded progress, and its application. */
  predicate PlanFor(q: Quest, isDesktop: bool, p: Plan) {
    && !p.NoEligibleQuest? && p.questId == q.id
    && (p.NoTask? <==> ChooseTask(q).None?)
    && (p.SpoofVideo? <==> ChooseTask(q).Some? && IsVideoTask(ChooseTask(q).value))
    && (p.SpoofVideo? ==> ChooseTask(q) == Some(p.task) && p.needed == Tasks(q)[p.task] && p.start == StartProgress(q, p.task))
    && (p.NotDesktop? <==> !isDesktop && ChooseTask(q).Some? && NeedsDesktop(ChooseTask(q).value))
    && (p.NotDesktop? ==> ChooseTask(q) == Some(p.task))
    && (p.SpoofDesktopPlay? <==> isDesktop && ChooseTask(q) == Some("PLAY_ON_DESKTOP"))
    && (p.SpoofDesktopPlay? ==> p.appId == q.applicationId && p.needed == Tasks(q)["PLAY_ON_DESKTOP"])
    && (p.SpoofStream? <==> isDesktop && ChooseTask(q) == Some("STREAM_ON_DESKTOP"))
    && (p.SpoofStream? ==> p.appId == q.applicationId && p.needed == Tasks(q)["STREAM_ON_DESKTOP"])
    && (p.SpoofActivity? || p.NoVoiceChannel? <==> ChooseTask(q) == Some("PLAY_ACTIVITY"))
    && (p.SpoofActivity? ==> p.needed == Tasks(q)["PLAY_ACTIVITY"])
  }

  /** The plugin never picks a quest the user has already completed, and plans nothing when
      every quest is completed. */
  lemma CompletedQuestIgnored(quests: seq<Quest>, nowMs: int, isDesktop: bool, pcs: seq<string>, gvs: seq<seq<string>>, i: nat)
    requires i < |quests| && quests[i].userStatus.Some? && Truthy(quests[i].userStatus.value.completedAt)
    ensures FindQuest(quests, nowMs) != Some(i)
    ensures (forall j :: 0 <= j < |quests| ==> quests[j].userStatus.Some? && Truthy(quests[j].userStatus.value.completedAt))
      ==> StartPlan(quests, nowMs, isDesktop, pcs, gvs) == NoEligibleQuest
  {
    assert !Eligible(quests[i], nowMs);
  }

  /** For the quest chosen, a present video task sets off the video loop from the recorded
      progress, whatever other tasks it has. */
  lemma VideoQuestPlan(quests: seq<Quest>, nowMs: int, isDesktop: bool, pcs: seq<string>, gvs: seq<seq<string>>, i: nat)
    requires FindQuest(quests, nowMs) == Some(i) && "WATCH_VIDEO" in Tasks(quests[i])
    ensures StartPlan(quests, nowMs, isDesktop, pcs, gvs)
         == SpoofVideo(quests[i].id, "WATCH_VIDEO", Tasks(quests[i])["WATCH_VIDEO"], StartProgress(quests[i], "WATCH_VIDEO"))
  {
    VideoPreferred(quests[i]);
  }

  // ---------------------------------------------------------------- the video loop

  /** The seconds one progress post advances by. */
  const Speed := 7

  function Min(a: int, b: int): int {
    if a <= b then a else b
  }

  /** `Running` while the loop goes on; `Completed` after a reply with `completed_at`; `Reached`
      once the next timestamp reaches the target. */
  datatype VideoStatus = Running | Completed | Reached

  /** The loop's state: `secondsDone`, the timestamps posted so far, and whether it has left. */
  datatype VideoState = VideoState(done: int, posts: seq<int>, status: VideoStatus)

  /** One iteration of the loop, with `maxAllowed` read from the clock. */
  function VideoStep(st: VideoState, needed: int, maxAllowed: int, completed: nat -> bool): (r: VideoState)
    requires st.status == Running
    ensures |st.posts| <= |r.posts| <= |st.posts| + 1 && r.posts[..|st.posts|] == st.posts
    ensures |r.posts| == |st.posts| + 1 <==> maxAllowed - st.done >= Speed
    ensures |r.posts| == |st.posts| + 1 ==> r.posts[|st.posts|] <= maxAllowed && r.posts[|st.posts|] <= needed
    ensures |r.posts| == |st.posts| + 1 ==> r.posts[|st.posts|] == Min(needed, st.done + Speed)
    ensures r.status != Completed && |r.posts| == |st.posts| + 1 ==> r.done == Min(needed, st.done + Speed)
    ensures r.status == Completed || |r.posts| == |st.posts| ==> r.done == st.done
    ensures r.status == Completed <==> |r.posts| == |st.posts| + 1 && completed(|st.posts|)
    ensures r.status == Reached <==> !(|r.posts| == |st.posts| + 1 && completed(|st.posts|)) && st.done + Speed >= needed
  {
    var timestamp := st.done + Speed;
    if maxAllowed - st.done >= Speed then
      var posts := st.posts + [Min(needed, timestamp)];
      if completed(|st.posts|) then VideoState(st.done, posts, Completed)
      else VideoState(Min(needed, timestamp), posts, if timestamp >= needed then Reached else Running)
    else VideoState(st.done, st.posts, if timestamp >= needed then Reached else Running)
  }

  /** The loop run over the clock readings, until it leaves or the readings run out. */
  function VideoRun(st: VideoState, needed: int, clock: seq<int>, completed: nat -> bool): VideoState
    decreases |clock|
  {
    if clock == [] || st.status != Running then st
    else VideoRun(VideoStep(st, needed, clock[0], completed), needed, clock[1..], completed)
  }

  function VideoStart(start: int): VideoState {
    VideoState(start, [], Running)
  }

  /** `spoofVideo`: the timestamps posted, `secondsDone`, and whether the loop left (and so sent
      the final post of the target). */
  method SpoofVideoLoop(needed: int, start: int, clock: seq<int>, completed: nat -> bool)
    returns (posts: seq<int>, done: int, finished: bool)
    ensures var r := VideoRun(VideoStart(start), needed, clock, completed);
      && done == r.done
      && (finished <==> r.status != Running)
      && posts == r.posts + (if finished then [needed] else [])
  {
    var i := 0;
    done := start;
    var sent: seq<int> := [];
    var status := Running;
    while i < |clock| && status == Running
      invariant 0 <= i <= |clock|
      invariant VideoRun(VideoStart(start), needed, clock, completed)
             == VideoRun(VideoState(done, sent, status), needed, clock[i..], completed)
    {
      assert clock[i..][0] == clock[i] && clock[i..][1..] == clock[i + 1..];
      var maxAllowed := clock[i];
      var diff := maxAllowed - done;
      var timestamp := done + Speed;
      if diff >= Speed {
        sent := sent + [Min(needed, timestamp)];
        if completed(|sent| - 1) {
          status := Completed;
        } else {
          done := Min(needed, timestamp);
        }
      }
      if status == Running && timestamp >= needed {
        status := Reached;
      }
      i := i + 1;
    }
    finished := status != Running;
    posts := if finished then sent + [needed] else sent;
  }

  /** The shape of every state the loop reaches from `start`: the k-th post is
      `min(needed, start + 7 * (k + 1))`, and while running `secondsDone` is the start plus 7 per
      post. */
  predicate VideoShape(st: VideoState, start: int, needed: int) {
    && (forall k :: 0 <= k < |st.posts| ==> st.posts[k] == Min(needed, start + Speed * (k + 1)))
    && (st.status == Running ==> st.done == start + Speed * |st.posts|)
  }

  lemma StepKeepsShape(st: VideoState, start: int, needed: int, maxAllowed: int, completed: nat -> bool)
    requires st.status == Running && VideoShape(st, start, needed)
    ensures VideoShape(VideoStep(st, needed, maxAllowed, completed), start, needed)
  {
    var r := VideoStep(st, needed, maxAllowed, completed);
    if |r.posts| == |st.posts| + 1 {
      assert r.posts == st.posts + [Min(needed, st.done + Speed)];
      assert st.done + Speed == start + Speed * (|st.posts| + 1);
    }
  }

  lemma {:induction false} RunKeepsShape(st: VideoState, start: int, needed: int, clock: seq<int>, completed: nat -> bool)
    requires VideoShape(st, start, needed)
    ensures VideoShape(VideoRun(st, needed, clock, completed), start, needed)
    decreases |clock|
  {
    if clock != [] && st.status == Running {
      StepKeepsShape(st, start, needed, clock[0], completed);
      RunKeepsShape(VideoStep(st, needed, clock[0], completed), start, needed, clock[1..], completed);
    }
  }

  /** The posts go up by 7 seconds each and never pass the target. */
  lemma VideoPostsAdvanceBySpeed(needed: int, start: int, clock: seq<int>, completed: nat -> bool)
    ensures var r := VideoRun(VideoStart(start), needed, clock, completed);
      forall k :: 0 <= k < |r.posts| ==> r.posts[k] == Min(needed, start + Speed * (k + 1)) && r.posts[k] <= needed
  {
    RunKeepsShape(VideoStart(start), start, needed, clock, completed);
  }

  /** The loop leaves on `completed_at` only right after a post whose reply carried it. */
  lemma {:induction false} CompletedAfterReply(st: VideoState, needed: int, clock: seq<int>, completed: nat -> bool)
    requires st.status == Running
    ensures var r := VideoRun(st, needed, clock, completed);
      r.status == Completed ==> |r.posts| > 0 && completed(|r.posts| - 1)
    decreases |clock|
  {
    if clock != [] {
      var next := VideoStep(st, needed, clock[0], completed);
      if next.status == Running {
        CompletedAfterReply(next, needed, clock[1..], completed);
      }
    }
  }

  /** With the clock always leaving room and no early completion, the loop reaches the target
      within `ceil((needed - done) / 7)` iterations, and at least one. */
  lemma {:induction false} EnoughTimeReachesTarget(st: VideoState, needed: int, clock: seq<int>, completed: nat -> bool)
    requires st.status == Running && st.done <= needed
    requires clock != [] && Speed * |clock| >= needed - st.done
    requires forall i :: 0 <= i < |clock| ==> clock[i] >= needed + Speed
    requires forall k: nat :: !completed(k)
    ensures VideoRun(st, needed, clock, completed).status == Reached
    decreases |clock|
  {
    var next := VideoStep(st, needed, clock[0], completed);
    assert |next.posts| == |st.posts| + 1;
    if next.status == Running {
      assert next.done == st.done + Speed;
      EnoughTimeReachesTarget(next, needed, clock[1..], completed);
    }
  }

  // ---------------------------------------------------------------- the overwritten store functions

  /** A fake game process. */
  datatype Game = Game(id: string, name: string, exeName: string, pid: int)

  /** What a store function slot holds: whatever was there (`Original`), or one of the fakes. */
  datatype StoreFn =
    | Original(tag: nat)
    | FakeRunningGames(game: Game)
    | FakeGameForPid(game: Game)
    | FakeStreamMetadata(appId: string, pid: int)

  /** A `RUNNING_GAMES_CHANGE` dispatch. */
  datatype GamesChange = GamesChange(removed: seq<Game>, added: seq<Game>, games: seq<Game>)

  /** A `QUESTS_SEND_HEARTBEAT_SUCCESS` listener with what its closure holds. */
  datatype Listener =
    | PlayListener(id: nat, needed: int, configVersion: int, backupGames: StoreFn, backupByPid: StoreFn, fake: Game)
    | StreamListener(id: nat, needed: int, configVersion: int, backup: StoreFn)

  /** The heartbeat's user status: `streamProgressSeconds` and the floored progress value of
      the task the listener watches. */
  datatype Heartbeat = Heartbeat(streamProgressSeconds: int, playValue: int, streamValue: int)

  /** The progress a listener reads from a heartbeat. */
  function HeartbeatProgress(l: Listener, data: Heartbeat): (p: int)
    ensures l.configVersion == 1 ==> p == data.streamProgressSeconds
    ensures l.configVersion != 1 && l.PlayListener? ==> p == data.playValue
    ensures l.configVersion != 1 && l.StreamListener? ==> p == data.streamValue
  {
    if l.configVersion == 1 then data.streamProgressSeconds
    else if l.PlayListener? then data.playValue
    else data.streamValue
  }

  /** A listener reads one field of the heartbeat: the stream seconds for configVersion 1, and
      otherwise the progress of its own task, so the other fields never matter. */
  lemma HeartbeatReadsOneField(l: Listener, d: Heartbeat, e: Heartbeat)
    ensures l.configVersion == 1 && d.streamProgressSeconds == e.streamProgressSeconds
      ==> HeartbeatProgress(l, d) == HeartbeatProgress(l, e)
    ensures l.configVersion != 1 && l.PlayListener? && d.playValue == e.playValue
      ==> HeartbeatProgress(l, d) == HeartbeatProgress(l, e)
    ensures l.configVersion != 1 && l.StreamListener? && d.streamValue == e.streamValue
      ==> HeartbeatProgress(l, d) == HeartbeatProgress(l, e)
  {
  }

  /** `listeners` without the one with id `id`. */
  function Without(listeners: seq<Listener>, id: nat): (r: seq<Listener>)
    ensures forall k :: 0 <= k < |r| ==> r[k].id != id
    ensures |r| <= |listeners|
    ensures forall x :: x in r ==> x in listeners
  {
    if listeners == [] then []
    else (if listeners[0].id == id then [] else [listeners[0]]) + Without(listeners[1..], id)
  }

  /** Unsubscribing works piece by piece: on a list joined from two, it is the join of the two
      lists unsubscribed, so the listeners it keeps stay in their order. */
  lemma {:induction false} WithoutAppend(a: seq<Listener>, b: seq<Listener>, id: nat)
    ensures Without(a + b, id) == Without(a, id) + Without(b, id)
  {
    if a == [] {
      assert a + b == b;
    } else {
      assert (a + b)[0] == a[0] && (a + b)[1..] == a[1..] + b;
      WithoutAppend(a[1..], b, id);
    }
  }

  /** Every listener with another id is kept. */
  lemma {:induction false} WithoutKeepsOthers(listeners: seq<Listener>, id: nat, k: nat)
    requires k < |listeners| && listeners[k].id != id
    ensures listeners[k] in Without(listeners, id)
  {
    if k == 0 {
      assert Without(listeners, id) == [listeners[0]] + Without(listeners[1..], id);
    } else {
      WithoutKeepsOthers(listeners[1..], id, k - 1);
    }
  }

  /** A list holding no listener with the id is left as it is. */
  lemma {:induction false} WithoutOthers(listeners: seq<Listener>, id: nat)
    requires forall k :: 0 <= k < |listeners| ==> listeners[k].id != id
    ensures Without(listeners, id) == listeners
  {
    if listeners != [] {
      WithoutOthers(listeners[1..], id);
      assert listeners == [listeners[0]] + listeners[1..];
    }
  }

  /** Removing a listener just subscribed, with an id none of the others has, gives back the
      earlier list. */
  lemma {:induction false} WithoutLast(listeners: seq<Listener>, l: Listener)
    requires forall k :: 0 <= k < |listeners| ==> listeners[k].id != l.id
    ensures Without(listeners + [l], l.id) == listeners
  {
    WithoutAppend(listeners, [l], l.id);
    WithoutOthers(listeners, l.id);
    assert Without([l], l.id) == [] + Without([], l.id);
  }

  /** The parts of the client the plugin changes: the three store function slots, the
      dispatcher's heartbeat listeners and the games changes it has dispatched. */
  class Client {
    var runningGames: StoreFn
    var gameForPid: StoreFn
    var streamMetadata: StoreFn
    var listeners: seq<Listener>
    var dispatched: seq<GamesChange>
    var nextListener: nat

    /** Every subscribed listener has an id below the next one handed out. */
    predicate Valid()
      reads this
    {
      forall k :: 0 <= k < |listeners| ==> listeners[k].id < nextListener
    }

    constructor(runningGames: StoreFn, gameForPid: StoreFn, streamMetadata: StoreFn)
      ensures Valid()
      ensures this.runningGames == runningGames && this.gameForPid == gameForPid
      ensures this.streamMetadata == streamMetadata
      ensures listeners == [] && dispatched == []
    {
      this.runningGames := runningGames;
      this.gameForPid := gameForPid;
      this.streamMetadata := streamMetadata;
      listeners := [];
      dispatched := [];
      nextListener := 0;
    }

    /** The desktop-play branch once the application is fetched: both game functions return
        the fake game, the change is dispatched, and a listener holding the two old functions
        is subscribed. */
    method StartDesktopPlay(needed: int, configVersion: int, fake: Game, realGames: seq<Game>) returns (l: Listener)
      requires Valid()
      modifies this
      ensures Valid()
      ensures l == PlayListener(old(nextListener), needed, configVersion, old(runningGames), old(gameForPid), fake)
      ensures runningGames == FakeRunningGames(fake) && gameForPid == FakeGameForPid(fake)
      ensures streamMetadata == old(streamMetadata)
      ensures dispatched == old(dispatched) + [GamesChange(realGames, [fake], [fake])]
      ensures listeners == old(listeners) + [l]
      ensures nextListener == old(nextListener) + 1
    {
      var backupGetGames := runningGames;
      var backupGetByPid := gameForPid;
      runningGames := FakeRunningGames(fake);
      gameForPid := FakeGameForPid(fake);
      dispatched := dispatched + [GamesChange(realGames, [fake], [fake])];
      l := PlayListener(nextListener, needed, configVersion, backupGetGames, backupGetByPid, fake);
      listeners := listeners + [l];
      nextListener := nextListener + 1;
    }

    /** The stream branch: the stream metadata function returns the fake stream, and a
        listener holding the old one is subscribed. */
    method StartStream(needed: int, configVersion: int, appId: string, pid: int) returns (l: Listener)
      requires Valid()
      modifies this
      ensures Valid()
      ensures l == StreamListener(old(nextListener), needed, configVersion, old(streamMetadata))
      ensures streamMetadata == FakeStreamMetadata(appId, pid)
      ensures runningGames == old(runningGames) && gameForPid == old(gameForPid)
      ensures dispatched == old(dispatched)
      ensures listeners == old(listeners) + [l]
      ensures nextListener == old(nextListener) + 1
    {
      var backup := streamMetadata;
      streamMetadata := FakeStreamMetadata(appId, pid);
      l := StreamListener(nextListener, needed, configVersion, backup);
      listeners := listeners + [l];
      nextListener := nextListener + 1;
    }

    /** A listener run on a heartbeat: once the progress reaches the target it unsubscribes
        itself and puts back the functions it saved (dispatching the removal of the fake game
        for desktop play); before that it changes nothing. */
    method OnHeartbeatSuccess(l: Listener, data: Heartbeat)
      requires Valid()
      modifies this
      ensures Valid()
      ensures HeartbeatProgress(l, data) < l.needed ==>
        && runningGames == old(runningGames) && gameForPid == old(gameForPid)
        && streamMetadata == old(streamMetadata)
        && listeners == old(listeners) && dispatched == old(dispatched)
      ensures HeartbeatProgress(l, data) >= l.needed ==> listeners == Without(old(listeners), l.id)
      ensures HeartbeatProgress(l, data) >= l.needed && l.PlayListener? ==>
        && runningGames == l.backupGames && gameForPid == l.backupByPid
        && streamMetadata == old(streamMetadata)
        && dispatched == old(dispatched) + [GamesChange([l.fake], [], [])]
      ensures HeartbeatProgress(l, data) >= l.needed && l.StreamListener? ==>
        && streamMetadata == l.backup
        && runningGames == old(runningGames) && gameForPid == old(gameForPid)
        && dispatched == old(dispatched)
      ensures nextListener == old(nextListener)
    {
      var progress := HeartbeatProgress(l, data);
      if progress >= l.needed {
        var before := listeners;
        listeners := Without(listeners, l.id);
        assert forall k :: 0 <= k < |listeners| ==> listeners[k] in before;
        if l.PlayListener? {
          runningGames := l.backupGames;
          gameForPid := l.backupByPid;
          dispatched := dispatched + [GamesChange([l.fake], [], [])];
        } else {
          streamMetadata := l.backup;
        }
      }
    }

    /** Desktop play from start to a heartbeat at the target: the store and the listeners are
        as they were, and the fake game was added and then removed. */
    method DesktopPlayRestores(needed: int, configVersion: int, fake: Game, realGames: seq<Game>, data: Heartbeat)
      requires Valid()
      requires (if configVersion == 1 then data.streamProgressSeconds else data.playValue) >= needed
      modifies this
      ensures Valid()
      ensures runningGames == old(runningGames) && gameForPid == old(gameForPid)
      ensures streamMetadata == old(streamMetadata) && listeners == old(listeners)
      ensures dispatched == old(dispatched) + [GamesChange(realGames, [fake], [fake]), GamesChange([fake], [], [])]
    {
      var l := StartDesktopPlay(needed, configVersion, fake, realGames);
      WithoutLast(old(listeners), l);
      OnHeartbeatSuccess(l, data);
    }

    /** Streaming from start to a heartbeat at the target: the stream metadata function and the
        listeners are as they were. */
    method StreamRestores(needed: int, configVersion: int, appId: string, pid: int, data: Heartbeat)
      requires Valid()
      requires (if configVersion == 1 then data.streamProgressSeconds else data.streamValue) >= needed
      modifies this
      ensures Valid()
      ensures runningGames == old(runningGames) && gameForPid == old(gameForPid)
      ensures streamMetadata == old(streamMetadata) && listeners == old(listeners)
      ensures dispatched == old(dispatched)
    {
      var l := StartStream(needed, configVersion, appId, pid);
      WithoutLast(old(listeners), l);
      OnHeartbeatSuccess(l, data);
    }
  }
}
