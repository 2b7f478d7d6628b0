/**
 * The core's handler for the registry's event notifications: which
 * events are kept (manifest media types, pull and push by clients, push
 * by the internal replication client), and what each kept event causes
 * (an access log, a repository record, a replication notice, an
 * automatic scan, a pull count).
 */
module RegistryEvents {
  import opened Wrappers
  import opened GoStrings

  /** models.Event, reduced to the fields the handler reads. */
  datatype Event = Event(action: string, repository: string, tag: string, mediaType: string,
                         userAgent: string, actorName: string)

  const InternalClient: string := "harbor-registry-client"
  const Pull: string := "pull"
  const Push: string := "push"
  const Anonymous: string := "anonymous"

  /** Whether the request came from the registry client the job service uses for replication. */
  predicate FromInternalClient(e: Event)
    ensures FromInternalClient(e) ==> |TrimSpace(e.userAgent)| == |InternalClient|
  {
    GoToLower(TrimSpace(e.userAgent)) == InternalClient
  }

  /** checkEvent: pulls and pushes from clients, and pushes from the internal client. */
  function CheckEvent(e: Event): (ok: bool)
    ensures ok <==> e.action == Push || (e.action == Pull && !FromInternalClient(e))
  {
    if !FromInternalClient(e) && (e.action == Pull || e.action == Push) then true
    else if FromInternalClient(e) && e.action == Push then true
    else false
  }

  /** Every character of the client's name is a lower-case letter or a hyphen. */
  lemma InternalClientLowerCase(j: nat)
    requires j < |InternalClient|
    ensures 'a' <= InternalClient[j] <= 'z' || InternalClient[j] == '-'
  {
  }

  /**
   * Go lower-cases a capital I with dot above to an ASCII i, so an agent
   * that writes one in place of an i of the client's name is the client.
   */
  lemma DottedCapitalIIsInternal(e: Event, k: nat)
    requires k < |InternalClient| && InternalClient[k] == 'i'
    requires e.userAgent == InternalClient[k := '\U{0130}']
    ensures FromInternalClient(e)
  {
    var agent := e.userAgent;
    assert Trimmed(agent) by {
      assert agent[0] == 'h' && agent[|agent| - 1] == 't';
    }
    forall j | 0 <= j < |agent|
      ensures GoLowerChar(agent[j]) == InternalClient[j]
    {
      if j != k {
        InternalClientLowerCase(j);
      }
    }
    assert GoToLower(agent) == InternalClient;
  }

  /** The internal client's pulls are never recorded; anything but a pull or a push never is. */
  lemma InternalPullIgnored(e: Event)
    requires FromInternalClient(e) || (e.action != Pull && e.action != Push)
    ensures CheckEvent(e) <==> e.action == Push
  {
  }

  /** filterEvents' test: a manifest media type and an event checkEvent accepts. */
  predicate Keeps(e: Event, isManifest: string -> bool) {
    isManifest(e.mediaType) && CheckEvent(e)
  }

  /**
   * The events filterEvents keeps, in order. `isManifest` is the match of
   * manifestPattern against a media type; the pattern is fixed, so its
   * matching never fails.
   */
  function Kept(events: seq<Event>, isManifest: string -> bool): (r: seq<Event>)
    ensures |r| <= |events|
    ensures forall k :: 0 <= k < |r| ==> r[k] in events && isManifest(r[k].mediaType) && CheckEvent(r[k])
  {
    if events == [] then []
    else
      var rest := Kept(events[..|events| - 1], isManifest);
      var e := events[|events| - 1];
      if Keeps(e, isManifest) then rest + [e] else rest
  }

  /** How many events filterEvents keeps: its length and Kept's agree. */
  function KeptCount(events: seq<Event>, isManifest: string -> bool): (n: nat)
    ensures n <= |events|
  {
    if events == [] then 0
    else KeptCount(events[..|events| - 1], isManifest) + (if Keeps(events[|events| - 1], isManifest) then 1 else 0)
  }

  /** Counting the kept events gives the length of the kept list. */
  lemma {:induction false} KeptCountIsLength(events: seq<Event>, isManifest: string -> bool)
    ensures KeptCount(events, isManifest) == |Kept(events, isManifest)|
  {
    if events != [] {
      KeptCountIsLength(events[..|events| - 1], isManifest);
    }
  }

  /** Keeping over one more event of the list. */
  lemma KeptStep(events: seq<Event>, isManifest: string -> bool, k: nat)
    requires k < |events|
    ensures Kept(events[..k + 1], isManifest) ==
      if Keeps(events[k], isManifest)
      then Kept(events[..k], isManifest) + [events[k]]
      else Kept(events[..k], isManifest)
  {
    assert events[..k + 1][..k] == events[..k];
  }

  /** Every event that passes both tests is kept. */
  lemma {:induction false} KeptComplete(events: seq<Event>, isManifest: string -> bool, k: nat)
    requires k < |events| && Keeps(events[k], isManifest)
    ensures events[k] in Kept(events, isManifest)
  {
    if k < |events| - 1 {
      KeptComplete(events[..|events| - 1], isManifest, k);
    }
  }

  /** Keeping distributes over concatenation, so the kept events stay in their original order. */
  lemma {:induction false} KeptAppend(a: seq<Event>, b: seq<Event>, isManifest: string -> bool)
    ensures Kept(a + b, isManifest) == Kept(a, isManifest) + Kept(b, isManifest)
    decreases |b|
  {
    if b == [] {
      assert a + b == a;
    } else {
      var b' := b[..|b| - 1];
      assert (a + b)[..|a + b| - 1] == a + b';
      KeptAppend(a, b', isManifest);
    }
  }

  /**
   * filterEvents, keeping a copy of each event. Returns the kept events
   * in order.
   */
  method FilterEvents(events: seq<Event>, isManifest: string -> bool) returns (r: seq<Event>)
    ensures r == Kept(events, isManifest)
  {
    r := [];
    var k := 0;
    while k < |events|
      invariant 0 <= k <= |events|
      invariant r == Kept(events[..k], isManifest)
    {
      var event := events[k];
      KeptStep(events, isManifest, k);
      if Keeps(event, isManifest) {
        r := r + [event];
      }
      k := k + 1;
    }
    assert events[..k] == events;
  }

  /** The single loop variable `event` of filterEvents, whose address the as-written loop appends. */
  class EventVar {
    var value: Event

    constructor(e: Event)
      ensures value == e
    {
      value := e;
    }
  }

  /** Counting over one more event of the list. */
  lemma KeptCountStep(events: seq<Event>, isManifest: string -> bool, k: nat)
    requires k < |events|
    ensures KeptCount(events[..k + 1], isManifest) ==
      KeptCount(events[..k], isManifest) + (if Keeps(events[k], isManifest) then 1 else 0)
  {
    assert events[..k + 1][..k] == events[..k];
  }

  /**
   * What the as-written filterEvents hands back once its loop is over:
   * one pointer per kept event, all to the loop variable, which then
   * holds the last event of the notification.
   */
  function AliasedView(events: seq<Event>, isManifest: string -> bool): (r: seq<Event>)
    ensures |r| == |Kept(events, isManifest)|
    ensures forall k :: 0 <= k < |r| ==> r[k] == events[|events| - 1]
  {
    if events == [] then []
    else seq(|Kept(events, isManifest)|, _ => events[|events| - 1])
  }

  /**
   * filterEvents as written: it appends &event, the address of the range
   * variable, which (with Go's loop-variable semantics before Go 1.22) is
   * one variable for the whole loop.
   */
  method FilterEventsAsWritten(events: seq<Event>, isManifest: string -> bool) returns (r: seq<EventVar>)
    ensures forall k :: 0 <= k < |r| ==> r[k] == r[0] && fresh(r[k])
    ensures |r| == |AliasedView(events, isManifest)|
    ensures forall k :: 0 <= k < |r| ==> r[k].value == AliasedView(events, isManifest)[k]
  {
    r := [];
    if events == [] {
      return;
    }
    var event := new EventVar(events[0]);
    var k := 0;
    while k < |events|
      invariant 0 <= k <= |events|
      invariant |r| == KeptCount(events[..k], isManifest)
      invariant forall j :: 0 <= j < |r| ==> r[j] == event
      invariant k > 0 ==> event.value == events[k - 1]
    {
      var keep := Keeps(events[k], isManifest);
      KeptCountStep(events, isManifest, k);
      event.value := events[k];
      if keep {
        r := r + [event];
      }
      k := k + 1;
    }
    assert events[..k] == events;
    KeptCountIsLength(events, isManifest);
  }

  /**
   * The aliasing loses events: a push of a manifest followed by an event
   * the filter drops comes back as the dropped event.
   */
  lemma AliasingReturnsDroppedEvent(isManifest: string -> bool, manifestType: string)
    requires isManifest(manifestType)
    ensures var push := Event(Push, "lib/app", "v1", manifestType, "", "");
            var other := Event("mount", "lib/app", "v1", manifestType, "", "");
            Kept([push, other], isManifest) == [push]
            && AliasedView([push, other], isManifest) == [other]
            && !CheckEvent(other)
  {
    var push := Event(Push, "lib/app", "v1", manifestType, "", "");
    var other := Event("mount", "lib/app", "v1", manifestType, "", "");
    assert TrimSpace("") == "" && GoToLower("") == "";
    assert !FromInternalClient(push) && !FromInternalClient(other);
    assert CheckEvent(push);
    assert !CheckEvent(other);
    KeptStep([push, other], isManifest, 0);
    KeptStep([push, other], isManifest, 1);
    assert [push, other][..0] == [];
    assert [push, other][..2] == [push, other];
  }

  // ---- Post ----

  /** The project fields Post reads. */
  datatype ProjectInfo = ProjectInfo(projectID: int, autoScan: bool)

  /** autoScanEnabled: never without Clair, else the project's own setting. */
  function AutoScanEnabled(withClair: bool, p: ProjectInfo): (enabled: bool)
    ensures enabled <==> withClair && p.autoScan
  {
    if !withClair then false else p.autoScan
  }

  /**
   * The answers Post's collaborators give: the project part of a
   * repository name (utils.ParseRepository), the project lookup (None:
   * not found), whether a manifest became ready, and Clair's last update
   * time.
   */
  datatype PostEnv = PostEnv(
    projectOf: string -> string,
    project: string -> Result<Option<ProjectInfo>, ()>,
    manifestReady: (string, string) -> bool,
    withClair: bool,
    lastUpdate: Result<int, ()>)

  /** What Post starts for an event (the goroutines and calls it makes), in order. */
  datatype Effect =
    | AccessLog(user: string, projectID: int, repo: string, tag: string, operation: string)
    | AddRepositoryIfMissing(repo: string, projectID: int)
    | PublishOnPush(image: string)
    | TriggerScan(repo: string, tag: string)
    | IncreasePullCount(repo: string)

  /** The effects of one event, and whether Post goes on to the next one. */
  datatype Step = Step(effects: seq<Effect>, goOn: bool)

  /** The user an access log names: the actor, or "anonymous" when there is none. */
  function UserOf(e: Event): (user: string)
    ensures user != ""
    ensures e.actorName != "" ==> user == e.actorName
  {
    if |e.actorName| == 0 then Anonymous else e.actorName
  }

  /** Post's loop body for one event. */
  function EventStep(e: Event, env: PostEnv): Step {
    match env.project(env.projectOf(e.repository))
      case Err(_) => Step([], false)
      case Ok(None) => Step([], true)
      case Ok(Some(pro)) =>
        var log := [AccessLog(UserOf(e), pro.projectID, e.repository, e.tag, e.action)];
        if e.action == Push then
          var added := log + [AddRepositoryIfMissing(e.repository, pro.projectID)];
          if !env.manifestReady(e.repository, e.tag) then Step(added, false)
          else
            var published := added + [PublishOnPush(e.repository + ":" + e.tag)];
            if AutoScanEnabled(env.withClair, pro) && env.lastUpdate.Ok? && env.lastUpdate.value != 0
            then Step(published + [TriggerScan(e.repository, e.tag)], true)
            else Step(published, true)
        else if e.action == Pull then Step(log + [IncreasePullCount(e.repository)], true)
        else Step(log, true)
  }

  /** The effects of Post over the kept events: each event's, until one stops the loop. */
  function PostEffects(events: seq<Event>, env: PostEnv): seq<Effect> {
    if events == [] then []
    else
      var step := EventStep(events[0], env);
      if step.goOn then step.effects + PostEffects(events[1..], env) else step.effects
  }

  /**
   * Post. `body` is the decoded notification's events (None: the body
   * did not decode); the result is what Post started, in order.
   */
  method Post(body: Option<seq<Event>>, isManifest: string -> bool, env: PostEnv) returns (effects: seq<Effect>)
    ensures body.None? ==> effects == []
    ensures body.Some? ==> effects == PostEffects(Kept(body.value, isManifest), env)
  {
    effects := [];
    if body.None? {
      return;
    }
    var events := FilterEvents(body.value, isManifest);
    var k := 0;
    while k < |events|
      invariant 0 <= k <= |events|
      invariant PostEffects(events, env) == effects + PostEffects(events[k..], env)
    {
      PostEffectsUnfold(events, k, env);
      var started, goOn := HandleEvent(events[k], env);
      AppendAssoc(effects, started, PostEffects(events[k + 1..], env));
      effects := effects + started;
      if !goOn {
        return;
      }
      k := k + 1;
    }
  }

  /**
   * Post as written: its loop dereferences the pointers the as-written
   * filterEvents returns, which all point to the last event of the
   * notification.
   */
  method PostAsWritten(body: Option<seq<Event>>, isManifest: string -> bool, env: PostEnv) returns (effects: seq<Effect>)
    ensures body.None? ==> effects == []
    ensures body.Some? ==> effects == PostEffects(AliasedView(body.value, isManifest), env)
  {
    effects := [];
    if body.None? {
      return;
    }
    var events := FilterEventsAsWritten(body.value, isManifest);
    ghost var view := AliasedView(body.value, isManifest);
    var k := 0;
    while k < |events|
      invariant 0 <= k <= |events|
      invariant |events| == |view| && forall j :: 0 <= j < |events| ==> events[j].value == view[j]
      invariant PostEffects(view, env) == effects + PostEffects(view[k..], env)
    {
      var event := events[k].value;
      assert event == view[k];
      PostEffectsUnfold(view, k, env);
      var started, goOn := HandleEvent(event, env);
      AppendAssoc(effects, started, PostEffects(view[k + 1..], env));
      effects := effects + started;
      if !goOn {
        return;
      }
      k := k + 1;
    }
  }

  /**
   * What the aliasing costs: for a manifest push followed by a mount in
   * the same notification, the corrected Post adds the repository,
   * publishes the push for replication and (with scanning on) scans the
   * image, while Post as written only logs a mount.
   */
  lemma AliasingLosesPushEffects(isManifest: string -> bool, manifestType: string, env: PostEnv, pro: ProjectInfo)
    requires isManifest(manifestType)
    requires env.project(env.projectOf("lib/app")) == Ok(Some(pro))
    requires env.manifestReady("lib/app", "v1")
    ensures var push := Event(Push, "lib/app", "v1", manifestType, "", "");
            var other := Event("mount", "lib/app", "v1", manifestType, "", "");
            var corrected := PostEffects(Kept([push, other], isManifest), env);
            var written := PostEffects(AliasedView([push, other], isManifest), env);
            && AddRepositoryIfMissing("lib/app", pro.projectID) in corrected
            && PublishOnPush("lib/app:v1") in corrected
            && (AutoScanEnabled(env.withClair, pro) && env.lastUpdate.Ok? && env.lastUpdate.value != 0 ==>
                  TriggerScan("lib/app", "v1") in corrected)
            && written == [AccessLog(Anonymous, pro.projectID, "lib/app", "v1", "mount")]
  {
    var push := Event(Push, "lib/app", "v1", manifestType, "", "");
    var other := Event("mount", "lib/app", "v1", manifestType, "", "");
    AliasingReturnsDroppedEvent(isManifest, manifestType);
    assert PostEffects([push], env) == EventStep(push, env).effects;
    assert PostEffects([other], env) == EventStep(other, env).effects;
    assert push.repository + ":" + push.tag == "lib/app:v1";
  }

  /** The body of Post's loop for one event: what it starts, and whether the loop goes on. */
  method HandleEvent(event: Event, env: PostEnv) returns (started: seq<Effect>, goOn: bool)
    ensures Step(started, goOn) == EventStep(event, env)
  {
    var repository := event.repository;
    var project := env.projectOf(repository);
    var tag := event.tag;
    var action := event.action;
    var user := event.actorName;
    if |user| == 0 {
      user := Anonymous;
    }
    var pro := env.project(project);
    if pro.Err? {
      return [], false;
    }
    if pro.value.None? {
      return [], true;
    }
    var p := pro.value.value;
    started := [AccessLog(user, p.projectID, repository, tag, action)];
    if action == Push {
      started := started + [AddRepositoryIfMissing(repository, p.projectID)];
      if !env.manifestReady(repository, tag) {
        return started, false;
      }
      started := started + [PublishOnPush(repository + ":" + tag)];
      if AutoScanEnabled(env.withClair, p) {
        if env.lastUpdate.Ok? && env.lastUpdate.value != 0 {
          started := started + [TriggerScan(repository, tag)];
        }
      }
    }
    if action == Pull {
      started := started + [IncreasePullCount(repository)];
    }
    goOn := true;
  }

  lemma AppendAssoc(a: seq<Effect>, b: seq<Effect>, c: seq<Effect>)
    ensures a + (b + c) == (a + b) + c
  {
  }

  /** Post's effects from the k-th event on: that event's, then (unless it stops) the rest. */
  lemma PostEffectsUnfold(events: seq<Event>, k: nat, env: PostEnv)
    requires k < |events|
    ensures PostEffects(events[k..], env) ==
      if EventStep(events[k], env).goOn
      then EventStep(events[k], env).effects + PostEffects(events[k + 1..], env)
      else EventStep(events[k], env).effects
  {
    assert events[k..][0] == events[k] && events[k..][1..] == events[k + 1..];
  }

  /** When no event stops the loop, Post's effects over a + b are those over a, then over b. */
  lemma {:induction false} PostEffectsAppend(a: seq<Event>, b: seq<Event>, env: PostEnv)
    requires forall k :: 0 <= k < |a| ==> EventStep(a[k], env).goOn
    ensures PostEffects(a + b, env) == PostEffects(a, env) + PostEffects(b, env)
  {
    if a != [] {
      assert (a + b)[0] == a[0] && (a + b)[1..] == a[1..] + b;
      PostEffectsAppend(a[1..], b, env);
    } else {
      assert a + b == b;
    }
  }

  /**
   * A failed project lookup stops Post: nothing is started for that event
   * or any later one.
   */
  lemma LookupErrorStopsPost(a: seq<Event>, e: Event, b: seq<Event>, env: PostEnv)
    requires forall k :: 0 <= k < |a| ==> EventStep(a[k], env).goOn
    requires env.project(env.projectOf(e.repository)).Err?
    ensures PostEffects(a + [e] + b, env) == PostEffects(a, env)
  {
    assert a + [e] + b == a + ([e] + b);
    PostEffectsAppend(a, [e] + b, env);
    assert ([e] + b)[0] == e;
  }

  /** An event whose project is unknown is skipped: Post goes on as if it were not there. */
  lemma UnknownProjectSkipped(a: seq<Event>, e: Event, b: seq<Event>, env: PostEnv)
    requires forall k :: 0 <= k < |a| ==> EventStep(a[k], env).goOn
    requires env.project(env.projectOf(e.repository)) == Ok(None)
    ensures PostEffects(a + [e] + b, env) == PostEffects(a + b, env)
  {
    assert a + [e] + b == a + ([e] + b);
    PostEffectsAppend(a, [e] + b, env);
    PostEffectsAppend(a, b, env);
    assert ([e] + b)[0] == e && ([e] + b)[1..] == b;
  }

  /**
   * Every access log Post writes names a user, and a scan is only ever
   * triggered with Clair deployed and its vulnerability data loaded.
   */
  lemma {:induction false} PostEffectsFacts(events: seq<Event>, env: PostEnv)
    ensures forall k :: 0 <= k < |PostEffects(events, env)| && PostEffects(events, env)[k].AccessLog? ==>
      PostEffects(events, env)[k].user != ""
    ensures forall k :: 0 <= k < |PostEffects(events, env)| && PostEffects(events, env)[k].TriggerScan? ==>
      env.withClair && env.lastUpdate.Ok? && env.lastUpdate.value != 0
  {
    if events != [] {
      PostEffectsFacts(events[1..], env);
    }
  }
}
