/**
 The token manager: a cached token, its expiry, and a lock that `get_token` takes and `refresh`
 does not.

 `TokenManager` is the object with its two fields. `System` is the same object shared by tasks
 that interleave wherever they wait: for the lock, or for the token service.
 */
module TokenManagement {
  import opened Wrappers

  const BUFFER := 30.0

  datatype Held = Held(token: string, expireAt: real)

  /** What the token service sends: a token and for how many seconds it says the token is good. */
  datatype Grant = Grant(token: string, expiresIn: int)

  datatype AuthFailed = AuthFailed

  predicate Stale(h: Held, now: real) {
    h.token == "" || now >= h.expireAt
  }

  function Stored(g: Grant, now: real): Held {
    Held(g.token, now + g.expiresIn as real - BUFFER)
  }

  class TokenManager {
    var token: string
    var expireAt: real

    constructor (initialToken: string)
      ensures token == initialToken && expireAt == 0.0
    {
      token, expireAt := initialToken, 0.0;
    }

    /** `answer` is what the token service sends, `now` the clock when it has been received. */
    method Refresh(answer: Result<Grant, AuthFailed>, now: real) returns (r: Result<(), AuthFailed>)
      modifies this
      ensures r.Ok? <==> answer.Ok?
      ensures Held(token, expireAt) == if answer.Ok? then Stored(answer.value, now) else old(Held(token, expireAt))
    {
      if answer.Err? {
        return Err(answer.error);
      }
      token := answer.value.token;
      expireAt := now + answer.value.expiresIn as real - BUFFER;
      return Ok(());
    }

    /** A call nothing interferes with: the token it returns was fetched by it, or is kept from
        before and has not come within the buffer of its end, which is 30 s. */
    method GetToken(checkedAt: real, answer: Result<Grant, AuthFailed>, now: real)
        returns (r: Result<string, AuthFailed>)
      modifies this
      ensures r.Err? <==> old(Stale(Held(token, expireAt), checkedAt)) && answer.Err?
      ensures Held(token, expireAt)
           == if old(Stale(Held(token, expireAt), checkedAt)) && answer.Ok? then Stored(answer.value, now)
              else old(Held(token, expireAt))
      ensures r.Ok? ==> r.value == token
      ensures old(Stale(Held(token, expireAt), checkedAt)) <==> old(token) == "" || checkedAt >= old(expireAt)
      ensures token != old(token) || expireAt != old(expireAt) ==>
                answer.Ok? && token == answer.value.token && expireAt == now + answer.value.expiresIn as real - 30.0
      ensures r.Ok? ==> (answer.Ok? && r.value == answer.value.token)
                        || (r.value == old(token) != "" && checkedAt < old(expireAt))
    {
      if token == "" || checkedAt >= expireAt {
        var refreshed := Refresh(answer, now);
        if refreshed.Err? {
          return Err(refreshed.error);
        }
      }
      return Ok(token);
    }
  }

  /******* Tasks that interleave *******/

  type Task = nat

  /** Where a task is. `begun` counts the fetches completed when its call began; `started` numbers
      the fetch it is waiting for among all that were started. */
  datatype Phase =
    | Idle
    | Waiting(begun: nat)
    | Holding(begun: nat)
    | Fetching(begun: nat, started: nat)
    | Refreshing(started: nat)

  /** A completed fetch: what was granted, the clock when it came, to which task, and its number
      among the fetches in the order they were started. */
  datatype Fetch = Fetch(grant: Grant, at: real, task: Task, started: nat)

  /** A fetch that `get_token` started: on which clock, after how many completed fetches. */
  datatype Start = Start(at: real, known: nat)

  /** A token handed out by `get_token`: to whom, when, and how many fetches had completed when
      the call began and when it returned. */
  datatype Handout = Handout(token: string, task: Task, at: real, begun: nat, known: nat)

  datatype System = System(
    clock: real,
    held: Held,
    lock: Option<Task>,
    tasks: map<Task, Phase>,
    started: nat,
    fetches: seq<Fetch>,
    starts: seq<Start>,
    handouts: seq<Handout>)
  {
    function PhaseOf(t: Task): Phase {
      if t in tasks then tasks[t] else Idle
    }

    function Move(t: Task, p: Phase): System {
      this.(tasks := tasks[t := p])
    }

    /** `get_token` returns the token that is held at that moment, and gives the lock back. */
    function HandOut(t: Task, begun: nat): System {
      Move(t, Idle).(lock := None, handouts := handouts + [Handout(held.token, t, clock, begun, |fetches|)])
    }

    function Receive(t: Task, g: Grant): System {
      this.(held := Stored(g, clock), fetches := fetches + [Fetch(g, clock, t, Pending(t))])
    }

    /** The number of the fetch a task is waiting for. */
    function Pending(t: Task): nat {
      match PhaseOf(t)
      case Fetching(_, n) => n
      case Refreshing(n) => n
      case _ => 0
    }
  }

  datatype Step =
    | Clock(now: real)
    | Call(t: Task)
    | Acquire(t: Task)
    | Check(t: Task)
    | Refresh(t: Task)
    | Receive(t: Task, grant: Grant)
    | Fail(t: Task)

  predicate Enabled(s: System, step: Step) {
    match step
    case Clock(_) => true
    case Call(t) => s.PhaseOf(t).Idle?
    case Acquire(t) => s.PhaseOf(t).Waiting? && s.lock == None
    case Check(t) => s.PhaseOf(t).Holding?
    case Refresh(t) => s.PhaseOf(t).Idle?
    case Receive(t, _) => s.PhaseOf(t).Fetching? || s.PhaseOf(t).Refreshing?
    case Fail(t) => !s.PhaseOf(t).Idle?
  }

  /** The clock may be set back; a task fails when its fetch does or when it is cancelled. */
  function Next(s: System, step: Step): System
    requires Enabled(s, step)
  {
    match step
    case Clock(now) => s.(clock := now)
    case Call(t) => s.Move(t, Waiting(|s.fetches|))
    case Acquire(t) => s.Move(t, Holding(s.PhaseOf(t).begun)).(lock := Some(t))
    case Check(t) =>
      var begun := s.PhaseOf(t).begun;
      if Stale(s.held, s.clock) then
        s.Move(t, Fetching(begun, s.started)).(
          started := s.started + 1, starts := s.starts + [Start(s.clock, |s.fetches|)])
      else s.HandOut(t, begun)
    case Refresh(t) => s.Move(t, Refreshing(s.started)).(started := s.started + 1)
    case Receive(t, g) =>
      var p := s.PhaseOf(t);
      if p.Fetching? then s.Receive(t, g).HandOut(t, p.begun) else s.Receive(t, g).Move(t, Idle)
    case Fail(t) => s.Move(t, Idle).(lock := if s.lock == Some(t) then None else s.lock)
  }

  function After(s: System, step: Step): System {
    if Enabled(s, step) then Next(s, step) else s
  }

  function Run(s: System, steps: seq<Step>): System
    decreases |steps|
  {
    if steps == [] then s else Run(After(s, steps[0]), steps[1..])
  }

  function Init(initialToken: string, now: real): System {
    System(now, Held(initialToken, 0.0), None, map[], 0, [], [], [])
  }

  /** What is held once `n` fetches have completed. */
  function HeldAfter(initialToken: string, fetches: seq<Fetch>, n: nat): Held
    requires n <= |fetches|
  {
    if n == 0 then Held(initialToken, 0.0) else Stored(fetches[n - 1].grant, fetches[n - 1].at)
  }

  /** Fetched within the call itself. */
  ghost predicate FetchedByCall(fetches: seq<Fetch>, h: Handout) {
    h.begun < h.known <= |fetches| && fetches[h.known - 1].task == h.task && fetches[h.known - 1].grant.token == h.token
  }

  /** Kept from the latest fetch, with more than the buffer of its reported lifetime left. */
  ghost predicate StillGood(fetches: seq<Fetch>, h: Handout) {
    && 0 < h.known <= |fetches| && fetches[h.known - 1].grant.token == h.token != ""
    && fetches[h.known - 1].at + fetches[h.known - 1].grant.expiresIn as real - h.at > BUFFER
  }

  /** The initial token, on a clock set before the epoch. */
  ghost predicate InitialBeforeEpoch(initialToken: string, h: Handout) {
    h.known == 0 && h.token == initialToken != "" && h.at < 0.0
  }

  ghost predicate Sound(initialToken: string, fetches: seq<Fetch>, h: Handout) {
    FetchedByCall(fetches, h) || StillGood(fetches, h) || InitialBeforeEpoch(initialToken, h)
  }

  /** `get_token` started this fetch because what it held then was empty or ending. */
  ghost predicate Needed(initialToken: string, fetches: seq<Fetch>, start: Start) {
    start.known <= |fetches| && Stale(HeldAfter(initialToken, fetches, start.known), start.at)
  }

  predicate InSection(p: Phase) {
    p.Holding? || p.Fetching?
  }

  ghost predicate TasksInv(s: System) {
    && (forall t :: t in s.tasks && InSection(s.tasks[t]) ==> s.lock == Some(t))
    && (forall t :: t in s.tasks && (s.tasks[t].Waiting? || InSection(s.tasks[t])) ==> s.tasks[t].begun <= |s.fetches|)
  }

  ghost predicate Inv(initialToken: string, s: System) {
    && TasksInv(s)
    && s.held == HeldAfter(initialToken, s.fetches, |s.fetches|)
    && (forall i :: 0 <= i < |s.starts| ==> Needed(initialToken, s.fetches, s.starts[i]))
    && (forall i :: 0 <= i < |s.handouts| ==> Sound(initialToken, s.fetches, s.handouts[i]))
  }

  lemma ReceiveKeeps(initialToken: string, s: System, t: Task, g: Grant)
    requires Inv(initialToken, s)
    ensures Inv(initialToken, s.Receive(t, g))
  {
    var v := s.Receive(t, g);
    forall i | 0 <= i < |v.starts| ensures Needed(initialToken, v.fetches, v.starts[i]) {
      assert Needed(initialToken, s.fetches, s.starts[i]);
      assert HeldAfter(initialToken, v.fetches, v.starts[i].known)
          == HeldAfter(initialToken, s.fetches, v.starts[i].known);
    }
    forall i | 0 <= i < |v.handouts| ensures Sound(initialToken, v.fetches, v.handouts[i]) {
      assert Sound(initialToken, s.fetches, s.handouts[i]);
    }
  }

  lemma InvStep(initialToken: string, s: System, step: Step)
    requires Inv(initialToken, s) && Enabled(s, step)
    ensures Inv(initialToken, Next(s, step))
  {
    match step
    case Receive(t, g) =>
      ReceiveKeeps(initialToken, s, t, g);
      var v, p := s.Receive(t, g), s.PhaseOf(t);
      if p.Fetching? {
        assert FetchedByCall(v.fetches, Handout(v.held.token, t, v.clock, p.begun, |v.fetches|));
      }
    case Check(t) =>
      if !Stale(s.held, s.clock) {
        assert Sound(initialToken, s.fetches, Handout(s.held.token, t, s.clock, s.PhaseOf(t).begun, |s.fetches|));
      }
    case _ =>
  }

  lemma {:induction false} RunInv(initialToken: string, s: System, steps: seq<Step>)
    requires Inv(initialToken, s)
    ensures Inv(initialToken, Run(s, steps))
    decreases |steps|
  {
    if steps != [] {
      if Enabled(s, steps[0]) {
        InvStep(initialToken, s, steps[0]);
      }
      RunInv(initialToken, After(s, steps[0]), steps[1..]);
    }
  }

  /** Over every interleaving: the token and the expiry that are held come from one and the same
      completed fetch, the latest; and at most one task is past the lock. */
  lemma TokenAndExpiryBelongTogether(initialToken: string, now: real, steps: seq<Step>)
    ensures var s := Run(Init(initialToken, now), steps);
            && s.held == HeldAfter(initialToken, s.fetches, |s.fetches|)
            && forall t, u :: t in s.tasks && u in s.tasks && InSection(s.tasks[t]) && InSection(s.tasks[u]) ==> t == u
  {
    RunInv(initialToken, Init(initialToken, now), steps);
  }

  /** The lock is held by that task which is past it, and by none if none is. */
  ghost predicate LockedByWhoIsInside(s: System) {
    forall t: Task :: s.lock == Some(t) <==> InSection(s.PhaseOf(t))
  }

  lemma LockStep(s: System, step: Step)
    requires LockedByWhoIsInside(s)
    ensures LockedByWhoIsInside(After(s, step))
  {
  }

  /** Over every interleaving the lock is taken if and only if some task is past it: whether a call returns, fails
      or is cancelled, it gives the lock back. */
  lemma {:induction false} LockIsGivenBack(s: System, steps: seq<Step>)
    requires LockedByWhoIsInside(s)
    ensures LockedByWhoIsInside(Run(s, steps))
    decreases |steps|
  {
    if steps != [] {
      LockStep(s, steps[0]);
      LockIsGivenBack(After(s, steps[0]), steps[1..]);
    }
  }

  /** So in every run a waiting task can get in as soon as the one inside is done, however that ends. */
  lemma {:induction false} NobodyIsLockedOut(initialToken: string, now: real, steps: seq<Step>, t: Task)
    requires Run(Init(initialToken, now), steps).PhaseOf(t).Waiting?
    ensures var s := Run(Init(initialToken, now), steps);
            s.lock == None || exists u :: s.lock == Some(u) && After(After(s, Fail(u)), Acquire(t)).PhaseOf(t).Holding?
  {
    LockIsGivenBack(Init(initialToken, now), steps);
    var s := Run(Init(initialToken, now), steps);
    if s.lock.Some? {
      var u := s.lock.value;
      assert InSection(s.PhaseOf(u)) && u != t;
      var v := After(s, Fail(u));
      assert v.lock == None && v.PhaseOf(t) == s.PhaseOf(t);
    }
  }

  /** Over every interleaving: whatever `get_token` returns was fetched within that very call, or
      has more than 30 s of its reported lifetime left, counted from when its fetch completed. */
  lemma HandedOutTokensAreGood(initialToken: string, now: real, steps: seq<Step>)
    ensures var s := Run(Init(initialToken, now), steps);
            forall i :: 0 <= i < |s.handouts| ==> Sound(initialToken, s.fetches, s.handouts[i])
  {
    RunInv(initialToken, Init(initialToken, now), steps);
  }

  /** Over every interleaving: `get_token` goes to the token service only for want of a token. */
  lemma NoNeedlessFetch(initialToken: string, now: real, steps: seq<Step>)
    ensures var s := Run(Init(initialToken, now), steps);
            forall i :: 0 <= i < |s.starts| ==> Needed(initialToken, s.fetches, s.starts[i])
  {
    RunInv(initialToken, Init(initialToken, now), steps);
  }

  ghost predicate NoTimeBeforeEpoch(steps: seq<Step>) {
    forall i :: 0 <= i < |steps| && steps[i].Clock? ==> steps[i].now >= 0.0
  }

  ghost predicate AfterEpoch(s: System) {
    s.clock >= 0.0 && forall i :: 0 <= i < |s.handouts| ==> s.handouts[i].at >= 0.0
  }

  lemma {:induction false} HandoutsAfterEpoch(s: System, steps: seq<Step>)
    requires AfterEpoch(s) && NoTimeBeforeEpoch(steps)
    ensures AfterEpoch(Run(s, steps))
    decreases |steps|
  {
    if steps != [] {
      var rest := steps[1..];
      assert forall i :: 0 <= i < |rest| ==> rest[i] == steps[i + 1];
      HandoutsAfterEpoch(After(s, steps[0]), rest);
    }
  }

  /** The token the manager was built with is never handed out: its expiry starts at the epoch. */
  lemma InitialTokenIsNeverUsed(initialToken: string, now: real, steps: seq<Step>)
    requires now >= 0.0 && NoTimeBeforeEpoch(steps)
    ensures var s := Run(Init(initialToken, now), steps);
            forall i :: 0 <= i < |s.handouts| ==>
              FetchedByCall(s.fetches, s.handouts[i]) || StillGood(s.fetches, s.handouts[i])
  {
    RunInv(initialToken, Init(initialToken, now), steps);
    HandoutsAfterEpoch(Init(initialToken, now), steps);
  }

  /** In seconds, on such a clock: a token handed out is that of the latest fetch, and was fetched within the
      call or has more than 30 s of its reported lifetime left. */
  lemma ThirtySecondsLeft(initialToken: string, now: real, steps: seq<Step>)
    requires now >= 0.0 && NoTimeBeforeEpoch(steps)
    ensures var s := Run(Init(initialToken, now), steps);
            forall i :: 0 <= i < |s.handouts| ==>
              && 0 < s.handouts[i].known <= |s.fetches|
              && var h := s.handouts[i]; var f := s.fetches[h.known - 1];
                 && f.grant.token == h.token
                 && ((h.begun < h.known && f.task == h.task) || f.at + f.grant.expiresIn as real - h.at > 30.0)
  {
    InitialTokenIsNeverUsed(initialToken, now, steps);
  }

  /** And on any clock, `get_token` asks for another token only when the held one is empty or has no more
      than 30 s of its reported lifetime left. */
  lemma FetchedOnlyInTheLastThirtySeconds(initialToken: string, now: real, steps: seq<Step>)
    ensures var s := Run(Init(initialToken, now), steps);
            forall i :: 0 <= i < |s.starts| ==>
              && s.starts[i].known <= |s.fetches|
              && (s.starts[i].known > 0 && s.fetches[s.starts[i].known - 1].grant.token != "" ==>
                   var f := s.fetches[s.starts[i].known - 1];
                   f.at + f.grant.expiresIn as real - s.starts[i].at <= 30.0)
              && (s.starts[i].known == 0 && initialToken != "" ==> s.starts[i].at >= 0.0)
  {
    NoNeedlessFetch(initialToken, now, steps);
  }

  /** `t` follows `s`: no completed fetch and no handout is forgotten, and each new handout is of
      a fetch no earlier than the last one `s` knew. */
  ghost predicate Follows(s: System, t: System) {
    && s.fetches <= t.fetches && s.handouts <= t.handouts
    && forall i :: |s.handouts| <= i < |t.handouts| ==> t.handouts[i].known >= |s.fetches|
  }

  lemma {:induction false} RunFollows(s: System, steps: seq<Step>)
    ensures Follows(s, Run(s, steps))
    decreases |steps|
  {
    if steps != [] {
      assert Follows(s, After(s, steps[0]));
      RunFollows(After(s, steps[0]), steps[1..]);
    }
  }

  /** After a refresh that followed a refusal, no call returns a token older than the refresh: every
      later token is that of the refresh or of a fetch that completed after it. */
  lemma RefreshedTokenIsTheOneUsed(initialToken: string, now: real, before: seq<Step>, later: seq<Step>, i: nat)
    requires var s := Run(Init(initialToken, now), before);
             s.fetches != [] && |s.handouts| <= i < |Run(s, later).handouts|
    ensures var s := Run(Init(initialToken, now), before);
            var t := Run(s, later);
            exists j :: |s.fetches| - 1 <= j < |t.fetches| && t.fetches[j].grant.token == t.handouts[i].token
  {
    var s := Run(Init(initialToken, now), before);
    var t := Run(s, later);
    RunInv(initialToken, Init(initialToken, now), before);
    RunInv(initialToken, s, later);
    RunFollows(s, later);
    var h := t.handouts[i];
    assert Sound(initialToken, t.fetches, h) && h.known >= |s.fetches|;
    assert t.fetches[h.known - 1].grant.token == h.token;
  }

  /** The clock stays short of the held token's end, and nobody forces a refresh. */
  ghost predicate WithinLifetime(held: Held, steps: seq<Step>) {
    forall i :: 0 <= i < |steps| ==> !steps[i].Refresh? && (steps[i].Clock? ==> steps[i].now < held.expireAt)
  }

  ghost predicate NothingInFlight(s: System) {
    forall t :: t in s.tasks ==> !s.tasks[t].Fetching? && !s.tasks[t].Refreshing?
  }

  /** One fetch serves everyone: while the held token lasts, any number of callers get it, in any
      interleaving, without another fetch. */
  lemma {:induction false} OneFetchServesAll(s: System, steps: seq<Step>)
    requires !Stale(s.held, s.clock) && NothingInFlight(s) && WithinLifetime(s.held, steps)
    ensures var t := Run(s, steps);
            && t.held == s.held && t.fetches == s.fetches && t.starts == s.starts
            && s.handouts <= t.handouts
            && forall i :: |s.handouts| <= i < |t.handouts| ==> t.handouts[i].token == s.held.token
    decreases |steps|
  {
    if steps != [] {
      var v, rest := After(s, steps[0]), steps[1..];
      assert forall i :: 0 <= i < |rest| ==> rest[i] == steps[i + 1];
      OneFetchServesAll(v, rest);
    }
  }

  lemma RunCons(s: System, step: Step, rest: seq<Step>)
    ensures Run(s, [step] + rest) == Run(After(s, step), rest)
  {
    assert ([step] + rest)[1..] == rest;
  }

  function AloneFrom(t: Task, now: real, g: Grant): seq<Step> {
    [Call(t)] + ([Acquire(t)] + ([Check(t)] + ([Clock(now)] + ([Receive(t, g)] + []))))
  }

  lemma Unroll(s: System, t: Task, now: real, g: Grant)
    ensures Run(s, AloneFrom(t, now, g))
         == After(After(After(After(After(s, Call(t)), Acquire(t)), Check(t)), Clock(now)), Receive(t, g))
  {
    var none: seq<Step> := [];
    RunCons(s, Call(t), [Acquire(t)] + ([Check(t)] + ([Clock(now)] + ([Receive(t, g)] + none))));
    var s1 := After(s, Call(t));
    RunCons(s1, Acquire(t), [Check(t)] + ([Clock(now)] + ([Receive(t, g)] + none)));
    var s2 := After(s1, Acquire(t));
    RunCons(s2, Check(t), [Clock(now)] + ([Receive(t, g)] + none));
    var s3 := After(s2, Check(t));
    RunCons(s3, Clock(now), [Receive(t, g)] + none);
    RunCons(After(s3, Clock(now)), Receive(t, g), none);
  }

  /** A task that runs alone does to the fields, and returns, what `TokenManager.GetToken` does. */
  lemma AloneIsGetToken(s: System, t: Task, now: real, g: Grant)
    requires s.lock == None && s.PhaseOf(t).Idle?
    ensures var v := Run(s, AloneFrom(t, now, g));
            && v.held == (if Stale(s.held, s.clock) then Stored(g, now) else s.held)
            && |v.handouts| == |s.handouts| + 1 && v.handouts[|s.handouts|].token == v.held.token
            && v.lock == None && v.PhaseOf(t).Idle?
  {
    Unroll(s, t, now, g);
    var s2 := After(After(s, Call(t)), Acquire(t));
    assert s2.PhaseOf(t) == Holding(|s.fetches|);
  }

  /******* Which of two fetches is kept *******/

  /** The token that is held was asked for after every other one that came. */
  ghost predicate NewestIsHeld(s: System) {
    forall i :: 0 <= i < |s.fetches| ==> s.fetches[i].started <= s.fetches[|s.fetches| - 1].started
  }

  predicate Awaits(s: System, t: Task) {
    s.PhaseOf(t).Fetching? || s.PhaseOf(t).Refreshing?
  }

  /** An answer leaves the newest token held exactly when none that came was asked for later. */
  lemma AnswerKeepsNewestIff(s: System, t: Task, g: Grant)
    requires Awaits(s, t)
    ensures NewestIsHeld(Next(s, Receive(t, g)))
        <==> forall i :: 0 <= i < |s.fetches| ==> s.fetches[i].started <= s.Pending(t)
  {
    var v := Next(s, Receive(t, g));
    assert forall i :: 0 <= i < |s.fetches| ==> v.fetches[i] == s.fetches[i];
    assert v.fetches[|s.fetches|].started == s.Pending(t);
  }

  /** Refreshes take no lock, so the fetch that completes last is kept: whenever the later one of two
      is answered first, the answer of the earlier one overwrites its token. */
  lemma SlowAnswerOverwrites(s: System, slow: Task, quick: Task, elder: Grant, newer: Grant)
    requires Awaits(s, slow) && Awaits(s, quick) && s.Pending(slow) < s.Pending(quick)
    ensures var v := After(After(s, Receive(quick, newer)), Receive(slow, elder));
            v.held == Stored(elder, s.clock) && !NewestIsHeld(v)
  {
    var u := After(s, Receive(quick, newer));
    assert u.PhaseOf(slow) == s.PhaseOf(slow);
    assert u.fetches[|s.fetches|].started == s.Pending(quick);
    AnswerKeepsNewestIff(u, slow, elder);
  }

  /** Two refreshes are enough to lose the newest token. */
  lemma TwoRefreshesOverwrite(initialToken: string, now: real, elder: Grant, newer: Grant)
    ensures var s := After(After(Init(initialToken, now), Refresh(0)), Refresh(1));
            var v := After(After(s, Receive(1, newer)), Receive(0, elder));
            v.held == Stored(elder, now) && !NewestIsHeld(v)
  {
    var s := After(After(Init(initialToken, now), Refresh(0)), Refresh(1));
    SlowAnswerOverwrites(s, 0, 1, elder, newer);
  }

  /** No two fetches that are awaited share a number, and all numbers have been given out. */
  ghost predicate Numbered(s: System) {
    && AllBefore(s.fetches, s.started)
    && (forall t :: Awaits(s, t) ==> s.Pending(t) < s.started)
    && (forall t, u :: Awaits(s, t) && Awaits(s, u) && t != u ==> s.Pending(t) != s.Pending(u))
  }

  lemma StartKeepsNumbered(s: System, v: System, t: Task)
    requires Numbered(s) && v.fetches == s.fetches && v.started == s.started + 1
    requires Awaits(v, t) && v.Pending(t) == s.started
    requires forall u :: u != t ==> v.PhaseOf(u) == s.PhaseOf(u)
    ensures Numbered(v)
  {
    forall u | Awaits(v, u) ensures v.Pending(u) < v.started {
      assert u != t ==> Awaits(s, u);
    }
    forall u, x | Awaits(v, u) && Awaits(v, x) && u != x ensures v.Pending(u) != v.Pending(x) {
      assert u != t ==> Awaits(s, u);
      assert x != t ==> Awaits(s, x);
    }
  }

  /** Whoever stops waiting, the others keep their numbers. */
  lemma StopKeepsNumbered(s: System, v: System, t: Task)
    requires Numbered(s) && v.started == s.started && AllBefore(v.fetches, v.started) && !Awaits(v, t)
    requires forall u :: u != t ==> v.PhaseOf(u) == s.PhaseOf(u)
    ensures Numbered(v)
  {
    forall u | Awaits(v, u) ensures Awaits(s, u) && v.Pending(u) == s.Pending(u) {
    }
  }

  lemma NumberedStep(s: System, step: Step)
    requires Numbered(s)
    ensures Numbered(After(s, step))
  {
    if Enabled(s, step) && !step.Clock? {
      var v := Next(s, step);
      if Awaits(v, step.t) {
        StartKeepsNumbered(s, v, step.t);
      } else {
        StopKeepsNumbered(s, v, step.t);
      }
    } else {
      SameTasks(s, After(s, step));
    }
  }

  lemma SameTasks(s: System, v: System)
    requires v.tasks == s.tasks
    ensures forall t :: Awaits(v, t) == Awaits(s, t) && v.Pending(t) == s.Pending(t)
  {
  }

  lemma {:induction false} RunNumbered(s: System, steps: seq<Step>)
    requires Numbered(s)
    ensures Numbered(Run(s, steps))
    decreases |steps|
  {
    if steps != [] {
      NumberedStep(s, steps[0]);
      RunNumbered(After(s, steps[0]), steps[1..]);
    }
  }

  /** Fetches that are under way come to their end, answered or not, and none is started. */
  ghost predicate Settling(steps: seq<Step>) {
    forall i :: 0 <= i < |steps| ==> steps[i].Receive? || steps[i].Fail? || steps[i].Clock?
  }

  /** At most one answer is awaited, and it was asked for after everything that came. */
  ghost predicate NoOverlap(s: System) {
    && (forall t, u :: Awaits(s, t) && Awaits(s, u) ==> t == u)
    && (forall t, i :: Awaits(s, t) && 0 <= i < |s.fetches| ==> s.fetches[i].started <= s.Pending(t))
  }

  lemma SettlingStep(s: System, step: Step)
    requires NoOverlap(s) && NewestIsHeld(s) && (step.Receive? || step.Fail? || step.Clock?)
    ensures NoOverlap(After(s, step)) && NewestIsHeld(After(s, step))
  {
    if Enabled(s, step) && !step.Clock? {
      var v := Next(s, step);
      assert forall u :: u != step.t ==> v.PhaseOf(u) == s.PhaseOf(u);
      assert !Awaits(v, step.t);
      assert forall u :: Awaits(v, u) ==> Awaits(s, u) && v.Pending(u) == s.Pending(u);
      if step.Receive? {
        assert Awaits(s, step.t);
        AnswerKeepsNewestIff(s, step.t, step.grant);
      }
    } else {
      SameTasks(s, After(s, step));
    }
  }

  lemma {:induction false} NoOverlapSettles(s: System, steps: seq<Step>)
    requires NoOverlap(s) && NewestIsHeld(s) && Settling(steps)
    ensures NewestIsHeld(Run(s, steps))
    decreases |steps|
  {
    if steps != [] {
      var rest := steps[1..];
      assert forall i :: 0 <= i < |rest| ==> rest[i] == steps[i + 1];
      SettlingStep(s, steps[0]);
      NoOverlapSettles(After(s, steps[0]), rest);
    }
  }

  lemma RunOne(s: System, step: Step)
    ensures Run(s, [step]) == After(s, step)
  {
    var none: seq<Step> := [];
    RunCons(s, step, none);
    assert [step] + none == [step];
  }

  /** One answer that is awaited behind a newer one which has come already loses it. */
  lemma LateAnswerLoses(s: System, t: Task, i: nat) returns (steps: seq<Step>)
    requires Awaits(s, t) && i < |s.fetches| && s.fetches[i].started > s.Pending(t)
    ensures Settling(steps) && !NewestIsHeld(Run(s, steps))
  {
    var answer := Receive(t, Grant("", 0));
    steps := [answer];
    RunOne(s, answer);
    AnswerKeepsNewestIff(s, t, answer.grant);
  }

  /** Two answers that are awaited together can come the wrong way round. */
  lemma TwoAnswersLose(s: System, slow: Task, quick: Task) returns (steps: seq<Step>)
    requires Awaits(s, slow) && Awaits(s, quick) && s.Pending(slow) < s.Pending(quick)
    ensures Settling(steps) && !NewestIsHeld(Run(s, steps))
  {
    var first, second := Receive(quick, Grant("", 0)), Receive(slow, Grant("", 0));
    steps := [first] + [second];
    RunCons(s, first, [second]);
    RunOne(After(s, first), second);
    SlowAnswerOverwrites(s, slow, quick, second.grant, first.grant);
  }

  lemma OverlapLoses(s: System) returns (steps: seq<Step>)
    requires Numbered(s) && !NoOverlap(s)
    ensures Settling(steps) && !NewestIsHeld(Run(s, steps))
  {
    if exists t, i: nat :: Awaits(s, t) && i < |s.fetches| && s.fetches[i].started > s.Pending(t) {
      var t, i: nat :| Awaits(s, t) && i < |s.fetches| && s.fetches[i].started > s.Pending(t);
      steps := LateAnswerLoses(s, t, i);
    } else {
      var t, u :| Awaits(s, t) && Awaits(s, u) && t != u;
      if s.Pending(t) < s.Pending(u) {
        steps := TwoAnswersLose(s, t, u);
      } else {
        steps := TwoAnswersLose(s, u, t);
      }
    }
  }

  /** However the fetches that are under way come to their end, the newest token stays held: if and
      only if at most one is under way, and it was started after everything that came. */
  lemma SettleIff(s: System)
    requires Numbered(s) && NewestIsHeld(s)
    ensures (forall steps :: Settling(steps) ==> NewestIsHeld(Run(s, steps))) <==> NoOverlap(s)
  {
    if NoOverlap(s) {
      forall steps | Settling(steps) ensures NewestIsHeld(Run(s, steps)) {
        NoOverlapSettles(s, steps);
      }
    } else {
      var steps := OverlapLoses(s);
      assert Settling(steps) && !NewestIsHeld(Run(s, steps));
    }
  }

  /** So a refresh is sure to leave the newest token held if and only if no fetch is under way when it
      is asked for. */
  lemma RefreshIsSafeIff(s: System, t: Task)
    requires Numbered(s) && NewestIsHeld(s) && s.PhaseOf(t).Idle?
    ensures (forall steps :: Settling(steps) ==> NewestIsHeld(Run(After(s, Refresh(t)), steps)))
        <==> forall u :: !Awaits(s, u)
  {
    var v := After(s, Refresh(t));
    NumberedStep(s, Refresh(t));
    assert Awaits(v, t) && v.Pending(t) == s.started;
    assert forall u :: u != t ==> v.PhaseOf(u) == s.PhaseOf(u);
    SettleIff(v);
    forall u ensures Awaits(v, u) <==> u == t || Awaits(s, u) {
      assert !Awaits(s, t);
    }
  }

  /** Every run from the start is numbered, so both hold wherever the newest token is held. */
  lemma EveryRunIsNumbered(initialToken: string, now: real, steps: seq<Step>)
    ensures Numbered(Run(Init(initialToken, now), steps))
  {
    RunNumbered(Init(initialToken, now), steps);
  }

  /** Fetches come in the order they were started, and one that is under way was started last. */
  ghost predicate InStartOrder(s: System) {
    && (forall i, j :: 0 <= i < j < |s.fetches| ==> s.fetches[i].started < s.fetches[j].started)
    && AllBefore(s.fetches, s.started)
    && (forall t :: t in s.tasks ==> PhaseInOrder(s, s.tasks[t]))
  }

  ghost predicate AllBefore(fetches: seq<Fetch>, n: nat) {
    forall i :: 0 <= i < |fetches| ==> fetches[i].started < n
  }

  ghost predicate PhaseInOrder(s: System, p: Phase) {
    !p.Refreshing? && (p.Fetching? ==> p.started < s.started && AllBefore(s.fetches, p.started))
  }

  lemma OrderedReceive(s: System, t: Task, g: Grant)
    requires TasksInv(s) && InStartOrder(s) && Enabled(s, Receive(t, g))
    ensures InStartOrder(Next(s, Receive(t, g)))
  {
    var v := Next(s, Receive(t, g));
    assert PhaseInOrder(s, s.tasks[t]);
    forall u | u in v.tasks ensures PhaseInOrder(v, v.tasks[u]) {
      if u != t {
        assert PhaseInOrder(s, s.tasks[u]);
      }
    }
  }

  lemma OrderedCheck(s: System, t: Task)
    requires TasksInv(s) && InStartOrder(s) && Enabled(s, Check(t))
    ensures InStartOrder(Next(s, Check(t)))
  {
    var v := Next(s, Check(t));
    forall u | u in v.tasks ensures PhaseInOrder(v, v.tasks[u]) {
      if u != t {
        assert PhaseInOrder(s, s.tasks[u]);
      }
    }
  }

  lemma OrderedStep(s: System, step: Step)
    requires TasksInv(s) && InStartOrder(s) && !step.Refresh?
    ensures InStartOrder(After(s, step))
  {
    if Enabled(s, step) {
      if step.Receive? {
        OrderedReceive(s, step.t, step.grant);
      } else if step.Check? {
        OrderedCheck(s, step.t);
      } else {
        var v := After(s, step);
        forall u | u in v.tasks ensures PhaseInOrder(v, v.tasks[u]) {
          assert u in s.tasks ==> PhaseInOrder(s, s.tasks[u]);
        }
      }
    }
  }

  lemma TasksStep(s: System, step: Step)
    requires TasksInv(s)
    ensures TasksInv(After(s, step))
  {
  }

  /** The lock is what keeps them apart: in every run of `get_token` alone, fetches complete in the
      order they were started, and the newest token is held. */
  lemma {:induction false} LockKeepsNewest(s: System, steps: seq<Step>)
    requires TasksInv(s) && InStartOrder(s) && forall i :: 0 <= i < |steps| ==> !steps[i].Refresh?
    ensures InStartOrder(Run(s, steps)) && NewestIsHeld(Run(s, steps))
    decreases |steps|
  {
    if steps != [] {
      var rest := steps[1..];
      assert forall i :: 0 <= i < |rest| ==> rest[i] == steps[i + 1];
      OrderedStep(s, steps[0]);
      TasksStep(s, steps[0]);
      LockKeepsNewest(After(s, steps[0]), rest);
    }
  }

  /******* When the initial token is handed out *******/

  function ReadingOf(step: Step): seq<real> {
    if step.Clock? then [step.now] else []
  }

  /** What the clock is set to in a run, in order. */
  function Readings(steps: seq<Step>): seq<real> {
    if steps == [] then [] else ReadingOf(steps[0]) + Readings(steps[1..])
  }

  function Clocks(readings: seq<real>): (steps: seq<Step>)
    ensures |steps| == |readings| && forall i :: 0 <= i < |steps| ==> steps[i] == Clock(readings[i])
  {
    seq(|readings|, i requires 0 <= i < |readings| => Clock(readings[i]))
  }

  lemma {:induction false} ReadingsOfClocks(readings: seq<real>)
    ensures Readings(Clocks(readings)) == readings
  {
    if readings != [] {
      assert Clocks(readings)[1..] == Clocks(readings[1..]);
      ReadingsOfClocks(readings[1..]);
    }
  }

  lemma {:induction false} ReadingsAppend(a: seq<Step>, b: seq<Step>)
    ensures Readings(a + b) == Readings(a) + Readings(b)
  {
    if a == [] {
      assert a + b == b;
    } else {
      assert (a + b)[1..] == a[1..] + b;
      ReadingsAppend(a[1..], b);
    }
  }

  lemma {:induction false} RunAppend(s: System, a: seq<Step>, b: seq<Step>)
    ensures Run(s, a + b) == Run(Run(s, a), b)
    decreases |a|
  {
    if a == [] {
      assert a + b == b;
    } else {
      assert (a + b)[1..] == a[1..] + b;
      RunAppend(After(s, a[0]), a[1..], b);
    }
  }

  lemma {:induction false} RunClocks(s: System, readings: seq<real>)
    ensures Run(s, Clocks(readings)) == s.(clock := ([s.clock] + readings)[|readings|])
    decreases |readings|
  {
    if readings != [] {
      assert Clocks(readings)[1..] == Clocks(readings[1..]);
      RunClocks(s.(clock := readings[0]), readings[1..]);
    }
  }

  /** The clock, and every time a token was handed out at, is one of the readings seen so far. */
  ghost predicate Seen(s: System, readings: seq<real>) {
    s.clock in readings && forall i :: 0 <= i < |s.handouts| ==> s.handouts[i].at in readings
  }

  lemma {:induction false} RunSeen(s: System, steps: seq<Step>, readings: seq<real>)
    requires Seen(s, readings)
    ensures Seen(Run(s, steps), readings + Readings(steps))
    decreases |steps|
  {
    if steps == [] {
      assert readings + [] == readings;
    } else {
      StepSeen(s, steps[0], readings);
      RunSeen(After(s, steps[0]), steps[1..], readings + ReadingOf(steps[0]));
      AddReadings(readings, ReadingOf(steps[0]), Readings(steps[1..]));
    }
  }

  lemma StepSeen(s: System, step: Step, readings: seq<real>)
    requires Seen(s, readings)
    ensures Seen(After(s, step), readings + ReadingOf(step))
  {
  }

  lemma AddReadings(a: seq<real>, b: seq<real>, c: seq<real>)
    ensures (a + b) + c == a + (b + c)
  {
  }

  /** Some call was handed this token before any fetch had completed. */
  ghost predicate HandsOutUnfetched(s: System, token: string) {
    exists i :: 0 <= i < |s.handouts| && s.handouts[i].known == 0 && s.handouts[i].token == token
  }

  function FirstCall(): seq<Step> {
    [Call(0)] + ([Acquire(0)] + ([Check(0)] + []))
  }

  /** With a clock before the epoch the first call is handed the initial token. */
  lemma FirstCallHandsOut(initialToken: string, now: real)
    requires initialToken != "" && now < 0.0
    ensures HandsOutUnfetched(Run(Init(initialToken, now), FirstCall()), initialToken)
  {
    var s0 := Init(initialToken, now);
    var none: seq<Step> := [];
    RunCons(s0, Call(0), [Acquire(0)] + ([Check(0)] + none));
    var s1 := After(s0, Call(0));
    RunCons(s1, Acquire(0), [Check(0)] + none);
    var s2 := After(s1, Acquire(0));
    RunCons(s2, Check(0), none);
    assert After(s2, Check(0)).handouts[0].known == 0 && After(s2, Check(0)).handouts[0].token == initialToken;
  }

  lemma FirstCallReadsNoClock()
    ensures Readings(FirstCall()) == []
  {
    var steps := FirstCall();
    assert steps[1..] == [Acquire(0), Check(0)] && steps[1..][1..] == [Check(0)];
  }

  /** The first call is made after the i-th reading. */
  function CallAfter(readings: seq<real>, i: nat): seq<Step>
    requires i <= |readings|
  {
    Clocks(readings[..i]) + (FirstCall() + Clocks(readings[i..]))
  }

  lemma {:induction false} CallAfterReads(readings: seq<real>, i: nat)
    requires i <= |readings|
    ensures Readings(CallAfter(readings, i)) == readings
  {
    ReadingsAppend(Clocks(readings[..i]), FirstCall() + Clocks(readings[i..]));
    CallThenReads(readings[i..]);
    ReadingsOfClocks(readings[..i]);
    assert readings[..i] + readings[i..] == readings;
  }

  lemma CallThenReads(readings: seq<real>)
    ensures Readings(FirstCall() + Clocks(readings)) == readings
  {
    ReadingsAppend(FirstCall(), Clocks(readings));
    FirstCallReadsNoClock();
    ReadingsOfClocks(readings);
    assert [] + readings == readings;
  }

  lemma {:induction false} CallAfterHandsOut(initialToken: string, now: real, readings: seq<real>, i: nat)
    requires initialToken != "" && i <= |readings| && ([now] + readings)[i] < 0.0
    ensures HandsOutUnfetched(Run(Init(initialToken, now), CallAfter(readings, i)), initialToken)
  {
    var s := Init(initialToken, now);
    RunAppend(s, Clocks(readings[..i]), FirstCall() + Clocks(readings[i..]));
    RunClocks(s, readings[..i]);
    var at := ([now] + readings)[i];
    assert ([now] + readings[..i])[i] == at;
    assert Run(s, Clocks(readings[..i])) == Init(initialToken, at);
    FirstCallHandsOut(initialToken, at);
    RunAppend(Init(initialToken, at), FirstCall(), Clocks(readings[i..]));
    RunClocks(Run(Init(initialToken, at), FirstCall()), readings[i..]);
  }

  lemma {:induction false} UnfetchedMeans(initialToken: string, now: real, steps: seq<Step>, token: string)
    requires HandsOutUnfetched(Run(Init(initialToken, now), steps), token)
    ensures token == initialToken != ""
    ensures exists i :: 0 <= i < |[now] + Readings(steps)| && ([now] + Readings(steps))[i] < 0.0
  {
    var s := Run(Init(initialToken, now), steps);
    RunInv(initialToken, Init(initialToken, now), steps);
    RunSeen(Init(initialToken, now), steps, [now]);
    var k :| 0 <= k < |s.handouts| && s.handouts[k].known == 0 && s.handouts[k].token == token;
    assert Sound(initialToken, s.fetches, s.handouts[k]);
    var at := s.handouts[k].at;
    assert at in [now] + Readings(steps);
  }

  /** For every list of clock readings: some run with them hands the initial token out unfetched if and
      only if there is one and some reading, the one at the start included, is before the epoch. */
  lemma InitialTokenHandedOutIff(initialToken: string, now: real, readings: seq<real>)
    ensures (exists steps :: Readings(steps) == readings
               && HandsOutUnfetched(Run(Init(initialToken, now), steps), initialToken))
        <==> initialToken != "" && exists i :: 0 <= i < |[now] + readings| && ([now] + readings)[i] < 0.0
  {
    if exists steps :: Readings(steps) == readings
         && HandsOutUnfetched(Run(Init(initialToken, now), steps), initialToken) {
      var steps :| Readings(steps) == readings
                   && HandsOutUnfetched(Run(Init(initialToken, now), steps), initialToken);
      UnfetchedMeans(initialToken, now, steps, initialToken);
    }
    if initialToken != "" && exists i :: 0 <= i < |[now] + readings| && ([now] + readings)[i] < 0.0 {
      var i :| 0 <= i < |[now] + readings| && ([now] + readings)[i] < 0.0;
      CallAfterReads(readings, i);
      CallAfterHandsOut(initialToken, now, readings, i);
      assert Readings(CallAfter(readings, i)) == readings;
    }
  }
}
