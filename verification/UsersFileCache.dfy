/**
 The stamped cache in front of the users file.

 `JsonUsersFile` is the cache as the code writes it: two fields updated in place.
 `World` is the same cache shared by any number of threads while the file is being
 edited. A load stats the file outside the lock and parses it inside, so the parse
 may see a newer file than the stat did; the theorem is that every load nevertheless
 answers as an uncached read at one instant of its own lifetime would.
 */
module UsersFileCache {
  import opened Wrappers

  /** Inode, mtime, ctime and size: what a stat tells two files apart by. */
  datatype Stamp = Stamp(inode: nat, mtime: int, ctime: int, size: nat)

  /** The file at one instant; `parsed` is None when it cannot be read, decoded or validated. */
  datatype File<+D> = Absent | Present(stamp: Stamp, parsed: Option<D>)

  datatype Invalid = CannotStat | CannotParse

  datatype Cache<+D> = Cache(stamp: Option<Stamp>, doc: Option<D>)

  /** What reading the file without a cache answers. */
  function Uncached<D>(f: File<D>): Result<D, Invalid> {
    match f
    case Absent => Err(CannotStat)
    case Present(_, None) => Err(CannotParse)
    case Present(_, Some(d)) => Ok(d)
  }

  /** The two answers agree on the document, or both refuse. */
  predicate SameAnswer<D(==)>(a: Result<D, Invalid>, b: Result<D, Invalid>) {
    match (a, b)
    case (Ok(d), Ok(e)) => d == e
    case (Err(_), Err(_)) => true
    case _ => false
  }

  predicate Stale<D(==)>(c: Cache<D>, stamp: Stamp) {
    Some(stamp) != c.stamp || c.doc == None
  }

  /** The critical section, given the stamp the caller holds and the file a parse would see. */
  function Critical<D(==)>(c: Cache<D>, stamp: Stamp, atRead: File<D>): (Cache<D>, Result<D, Invalid>) {
    if !Stale(c, stamp) then (c, Ok(c.doc.value))
    else
      match atRead
      case Present(_, Some(d)) => (Cache(Some(stamp), Some(d)), Ok(d))
      case _ => (c, Err(CannotParse))
  }

  class JsonUsersFile<D(==)> {
    var stamp: Option<Stamp>
    var doc: Option<D>

    constructor ()
      ensures stamp == None && doc == None
    {
      stamp := None;
      doc := None;
    }

    /** `atStat` is the file when it is stat-ed, `atRead` when (and if) it is parsed. */
    method Load(atStat: File<D>, atRead: File<D>) returns (r: Result<D, Invalid>)
      modifies this
      ensures atStat.Absent? ==> r == Err(CannotStat) && Cache(stamp, doc) == old(Cache(stamp, doc))
      ensures atStat.Present? ==> (Cache(stamp, doc), r) == Critical(old(Cache(stamp, doc)), atStat.stamp, atRead)
      ensures atStat == atRead && (atStat.Present? && old(stamp) == Some(atStat.stamp) ==> old(doc) == atStat.parsed)
              ==> SameAnswer(r, Uncached(atRead))
    {
      if atStat.Absent? {
        return Err(CannotStat);
      }
      if Some(atStat.stamp) != stamp || doc == None {
        var parsed := Parse(atRead);
        if parsed.Err? {
          return Err(parsed.error);
        }
        doc := Some(parsed.value);
        stamp := Some(atStat.stamp);
      }
      return Ok(doc.value);
    }

    method Parse(atRead: File<D>) returns (r: Result<D, Invalid>)
      ensures r.Ok? <==> Uncached(atRead).Ok?
      ensures r.Ok? ==> r == Uncached(atRead)
      ensures r.Err? ==> r.error == CannotParse
    {
      match atRead
      case Present(_, Some(d)) => r := Ok(d);
      case _ => r := Err(CannotParse);
    }
  }

  /******* Any number of threads, and a file that is edited under them *******/

  type Thread = nat

  /** Where a load is. `at` is the instant of its stat; `readAt` that of its parse. */
  datatype Phase<+D> =
    | Idle
    | Waiting(at: nat, stamp: Stamp)
    | Holding(at: nat, stamp: Stamp)
    | Reading(at: nat, stamp: Stamp)
    | Storing(at: nat, stamp: Stamp, readAt: nat, doc: D)

  /** A finished load: it lived from `begun` to `ended` and answered `answer`. */
  datatype Finished<+D> = Finished(begun: nat, ended: nat, answer: Result<D, Invalid>)

  /** `history[i]` is the file at instant i; every step takes one instant. */
  datatype World<D> = World(
    history: seq<File<D>>,
    cache: Cache<D>,
    lock: Option<Thread>,
    threads: map<Thread, Phase<D>>,
    finished: seq<Finished<D>>)
  {
    function Now(): int { |history| - 1 }

    function PhaseOf(t: Thread): Phase<D> {
      if t in threads then threads[t] else Idle
    }

    function Move(t: Thread, p: Phase<D>): World<D> {
      this.(threads := threads[t := p])
    }

    function Finish(t: Thread, begun: nat, answer: Result<D, Invalid>): World<D>
      requires |history| > 0
    {
      Move(t, Idle).(finished := finished + [Finished(begun, |history| - 1, answer)])
    }
  }

  datatype Step<+D> =
    | Edit(file: File<D>)
    | Stat(t: Thread)
    | Acquire(t: Thread)
    | Check(t: Thread)
    | Read(t: Thread)
    | Store(t: Thread)

  /** One instant passes with the file as it is. */
  function Tick<D>(w: World<D>): World<D>
    requires |w.history| > 0
  {
    w.(history := w.history + [w.history[|w.history| - 1]])
  }

  predicate Enabled<D>(w: World<D>, s: Step<D>) {
    && |w.history| > 0
    && match s
       case Edit(_) => true
       case Stat(t) => w.PhaseOf(t).Idle?
       case Acquire(t) => w.PhaseOf(t).Waiting? && w.lock == None
       case Check(t) => w.PhaseOf(t).Holding?
       case Read(t) => w.PhaseOf(t).Reading?
       case Store(t) => w.PhaseOf(t).Storing?
  }

  function Next<D(==)>(w0: World<D>, s: Step<D>): World<D>
    requires Enabled(w0, s)
  {
    var w := Tick(w0);
    var file := w.history[w.Now()];
    match s
    case Edit(f) => w0.(history := w0.history + [f])
    case Stat(t) =>
      if file.Absent? then w.Finish(t, w.Now(), Err(CannotStat))
      else w.Move(t, Waiting(w.Now(), file.stamp))
    case Acquire(t) =>
      var p := w.PhaseOf(t);
      w.Move(t, Holding(p.at, p.stamp)).(lock := Some(t))
    case Check(t) =>
      var p := w.PhaseOf(t);
      if Stale(w.cache, p.stamp) then w.Move(t, Reading(p.at, p.stamp))
      else w.Finish(t, p.at, Ok(w.cache.doc.value)).(lock := None)
    case Read(t) =>
      var p := w.PhaseOf(t);
      (match Uncached(file)
       case Ok(d) => w.Move(t, Storing(p.at, p.stamp, w.Now(), d))
       case Err(_) => w.Finish(t, p.at, Err(CannotParse)).(lock := None))
    case Store(t) =>
      var p := w.PhaseOf(t);
      w.Finish(t, p.at, Ok(p.doc)).(cache := Cache(Some(p.stamp), Some(p.doc)), lock := None)
  }

  function Start<D>(file: File<D>): World<D> {
    World([file], Cache(None, None), None, map[], [])
  }

  /** A step that cannot be taken is not taken. */
  function After<D(==)>(w: World<D>, s: Step<D>): World<D> {
    if Enabled(w, s) then Next(w, s) else w
  }

  function Run<D(==)>(w: World<D>, steps: seq<Step<D>>): World<D>
    decreases |steps|
  {
    if steps == [] then w else Run(After(w, steps[0]), steps[1..])
  }

  /** The file reads differently at `c` than a parse at `r` said, and yet carries the stamp that a
      stat at `a`, before that parse, has filed the parse under. */
  ghost predicate Deceives<D>(history: seq<File<D>>, a: nat, r: nat, c: nat)
    requires a <= r < c < |history|
  {
    && history[a].Present? && history[c].Present? && history[a].stamp == history[c].stamp
    && Uncached(history[r]).Ok? && Uncached(history[c]) != Uncached(history[r])
  }

  /** A stamp that is seen again still tells what was parsed since it was first seen. */
  ghost predicate StampsTell<D>(history: seq<File<D>>) {
    forall a: nat, r: nat, c: nat :: a <= r < c < |history| ==> !Deceives(history, a, r, c)
  }

  /** Every finished load answered as an uncached read at one of its instants would. */
  ghost predicate AllLinearized<D>(w: World<D>) {
    forall i :: 0 <= i < |w.finished| ==> Linearized(w.history, w.finished[i])
  }

  /** At some instant of the load's life an uncached read gives its answer. */
  ghost predicate Linearized<D>(history: seq<File<D>>, f: Finished<D>) {
    f.begun <= f.ended < |history|
    && exists i :: f.begun <= i <= f.ended && SameAnswer(f.answer, Uncached(history[i]))
  }

  ghost predicate SawStamp<D>(history: seq<File<D>>, at: nat, stamp: Stamp) {
    at < |history| && history[at].Present? && history[at].stamp == stamp
  }

  /** `doc` was read at instant `r`, by a load whose stat at instant `a` saw `stamp`. */
  ghost predicate ReadAfterStat<D>(history: seq<File<D>>, a: nat, stamp: Stamp, r: nat, doc: D) {
    a <= r < |history| && SawStamp(history, a, stamp) && Uncached(history[r]) == Ok(doc)
  }

  ghost predicate PhaseInv<D>(history: seq<File<D>>, p: Phase<D>) {
    match p
    case Idle => true
    case Waiting(a, s) => SawStamp(history, a, s)
    case Holding(a, s) => SawStamp(history, a, s)
    case Reading(a, s) => SawStamp(history, a, s)
    case Storing(a, s, r, d) => ReadAfterStat(history, a, s, r, d)
  }

  ghost predicate CacheInv<D>(history: seq<File<D>>, c: Cache<D>) {
    c.doc.Some? ==> c.stamp.Some? && exists a, r :: ReadAfterStat(history, a, c.stamp.value, r, c.doc.value)
  }

  ghost predicate Inv<D>(w: World<D>) {
    && |w.history| > 0
    && CacheInv(w.history, w.cache)
    && (forall t :: t in w.threads ==> PhaseInv(w.history, w.threads[t]))
    && (forall i :: 0 <= i < |w.finished| ==> Linearized(w.history, w.finished[i]))
  }

  /** What is known of a history stays known as instants are added. */
  lemma HistoryGrows<D>(w: World<D>, file: File<D>)
    requires Inv(w)
    ensures Inv(w.(history := w.history + [file]))
  {
    var longer := w.history + [file];
    forall i | 0 <= i < |w.finished| ensures Linearized(longer, w.finished[i]) {
      var f := w.finished[i];
      var j :| f.begun <= j <= f.ended && SameAnswer(f.answer, Uncached(w.history[j]));
      assert longer[j] == w.history[j];
    }
    if w.cache.doc.Some? {
      var a, r :| ReadAfterStat(w.history, a, w.cache.stamp.value, r, w.cache.doc.value);
      assert ReadAfterStat(longer, a, w.cache.stamp.value, r, w.cache.doc.value);
    }
  }

  /** A hit: either the cached parse happened after our own stat, or nothing changed since it. */
  lemma HitIsLinearized<D>(history: seq<File<D>>, c: Cache<D>, at: nat, stamp: Stamp)
    requires CacheInv(history, c) && StampsTell(history)
    requires SawStamp(history, at, stamp) && !Stale(c, stamp)
    ensures Linearized(history, Finished(at, |history| - 1, Ok(c.doc.value)))
  {
    var a: nat, r: nat :| ReadAfterStat(history, a, c.stamp.value, r, c.doc.value);
    if at < r {
      assert SameAnswer(Ok(c.doc.value), Uncached(history[r]));
    } else {
      assert r < at ==> !Deceives(history, a, r, at);
      assert SameAnswer(Ok(c.doc.value), Uncached(history[at]));
    }
  }

  lemma MoveKeepsInv<D>(w: World<D>, t: Thread, p: Phase<D>)
    requires Inv(w) && PhaseInv(w.history, p)
    ensures Inv(w.Move(t, p))
  {
  }

  lemma FinishKeepsInv<D>(w: World<D>, t: Thread, begun: nat, answer: Result<D, Invalid>)
    requires Inv(w) && Linearized(w.history, Finished(begun, |w.history| - 1, answer))
    ensures Inv(w.Finish(t, begun, answer))
  {
  }

  lemma InvStep<D>(w0: World<D>, s: Step<D>)
    requires Inv(w0) && Enabled(w0, s)
    requires StampsTell(Next(w0, s).history)
    ensures Inv(Next(w0, s))
  {
    var w := Tick(w0);
    HistoryGrows(w0, w0.history[w0.Now()]);
    var now := w.Now();
    match s
    case Edit(f) =>
      HistoryGrows(w0, f);
    case Stat(t) =>
      if w.history[now].Absent? {
        var gone: Result<D, Invalid> := Err(CannotStat);
        assert SameAnswer(gone, Uncached(w.history[now]));
        FinishKeepsInv(w, t, now, gone);
      } else {
        MoveKeepsInv(w, t, Waiting(now, w.history[now].stamp));
      }
    case Acquire(t) =>
      var p := w.PhaseOf(t);
      MoveKeepsInv(w, t, Holding(p.at, p.stamp));
    case Check(t) =>
      var p := w.PhaseOf(t);
      if Stale(w.cache, p.stamp) {
        MoveKeepsInv(w, t, Reading(p.at, p.stamp));
      } else {
        HitIsLinearized(w.history, w.cache, p.at, p.stamp);
        FinishKeepsInv(w, t, p.at, Ok(w.cache.doc.value));
      }
    case Read(t) =>
      var p := w.PhaseOf(t);
      if Uncached(w.history[now]).Ok? {
        MoveKeepsInv(w, t, Storing(p.at, p.stamp, now, Uncached(w.history[now]).value));
      } else {
        var bad: Result<D, Invalid> := Err(CannotParse);
        assert SameAnswer(bad, Uncached(w.history[now]));
        FinishKeepsInv(w, t, p.at, bad);
      }
    case Store(t) =>
      var p := w.PhaseOf(t);
      assert ReadAfterStat(w.history, p.at, p.stamp, p.readAt, p.doc);
      assert SameAnswer(Ok(p.doc), Uncached(w.history[p.readAt]));
      FinishKeepsInv(w, t, p.at, Ok(p.doc));
  }

  lemma {:induction false} RunKeepsHistory<D>(w: World<D>, steps: seq<Step<D>>)
    ensures w.history <= Run(w, steps).history
    decreases |steps|
  {
    if steps != [] {
      RunKeepsHistory(After(w, steps[0]), steps[1..]);
    }
  }

  lemma StampsTellEarlier<D>(earlier: seq<File<D>>, later: seq<File<D>>)
    requires earlier <= later && StampsTell(later)
    ensures StampsTell(earlier)
  {
    forall a: nat, r: nat, c: nat | a <= r < c < |earlier| ensures !Deceives(earlier, a, r, c) {
      assert !Deceives(later, a, r, c);
    }
  }

  lemma {:induction false} RunInv<D>(w: World<D>, steps: seq<Step<D>>)
    requires Inv(w) && StampsTell(Run(w, steps).history)
    ensures Inv(Run(w, steps))
    decreases |steps|
  {
    if steps != [] {
      var v := After(w, steps[0]);
      RunKeepsHistory(v, steps[1..]);
      StampsTellEarlier(v.history, Run(w, steps).history);
      if Enabled(w, steps[0]) {
        InvStep(w, steps[0]);
      }
      RunInv(v, steps[1..]);
    }
  }

  /** Under any interleaving of loads and edits, each load is an uncached read at one of its instants. */
  lemma LoadsAreLinearizable<D>(file: File<D>, steps: seq<Step<D>>)
    requires StampsTell(Run(Start(file), steps).history)
    ensures AllLinearized(Run(Start(file), steps))
  {
    RunInv(Start(file), steps);
  }

  /** A load during which the file always reads as `what` answers `what`: an invalid or missing
      file is never masked by the cached document, and a valid one is served exactly. */
  lemma SteadyFileIsServed<D>(file: File<D>, steps: seq<Step<D>>, k: nat, what: Result<D, Invalid>)
    requires StampsTell(Run(Start(file), steps).history)
    requires k < |Run(Start(file), steps).finished|
    requires var w := Run(Start(file), steps);
             forall i :: w.finished[k].begun <= i <= w.finished[k].ended && i < |w.history|
                         ==> SameAnswer(Uncached(w.history[i]), what)
    ensures SameAnswer(Run(Start(file), steps).finished[k].answer, what)
  {
    RunInv(Start(file), steps);
    assert Linearized(Run(Start(file), steps).history, Run(Start(file), steps).finished[k]);
  }

  /** The lock is held by the one thread inside the critical section. */
  ghost predicate Exclusive<D>(w: World<D>) {
    forall t :: t in w.threads && (w.threads[t].Holding? || w.threads[t].Reading? || w.threads[t].Storing?)
                ==> w.lock == Some(t)
  }

  lemma {:induction false} OneParserAtATime<D>(w: World<D>, steps: seq<Step<D>>)
    requires Exclusive(w)
    ensures Exclusive(Run(w, steps))
    decreases |steps|
  {
    if steps != [] {
      OneParserAtATime(After(w, steps[0]), steps[1..]);
    }
  }

  predicate Inside<D>(p: Phase<D>) {
    p.Holding? || p.Reading? || p.Storing?
  }

  /** The lock is held by exactly the thread that is in the critical section. */
  ghost predicate LockedByWhoIsInside<D>(w: World<D>) {
    forall t: Thread :: w.lock == Some(t) <==> Inside(w.PhaseOf(t))
  }

  lemma LockStep<D>(w: World<D>, s: Step<D>)
    requires LockedByWhoIsInside(w)
    ensures LockedByWhoIsInside(After(w, s))
  {
  }

  /** Over any interleaving the lock is taken if and only if some thread is inside: a load that hits, stores or
      fails to parse gives it back. */
  lemma {:induction false} LockIsGivenBack<D>(w: World<D>, steps: seq<Step<D>>)
    requires LockedByWhoIsInside(w)
    ensures LockedByWhoIsInside(Run(w, steps))
    decreases |steps|
  {
    if steps != [] {
      LockStep(w, steps[0]);
      LockIsGivenBack(After(w, steps[0]), steps[1..]);
    }
  }

  function AloneFrom<D>(t: Thread): seq<Step<D>> {
    [Stat(t)] + ([Acquire(t)] + ([Check(t)] + ([Read(t)] + ([Store(t)] + []))))
  }

  lemma RunCons<D>(w: World<D>, s: Step<D>, rest: seq<Step<D>>)
    ensures Run(w, [s] + rest) == Run(After(w, s), rest)
  {
    assert ([s] + rest)[1..] == rest;
  }

  /** `v` comes from `w` by instants in which the file stayed `file`. */
  ghost predicate Quiet<D>(w: World<D>, v: World<D>, file: File<D>) {
    && 0 < |w.history| <= |v.history|
    && w.history[|w.history| - 1] == file
    && (forall i :: 0 <= i < |w.history| ==> v.history[i] == w.history[i])
    && (forall i :: |w.history| <= i < |v.history| ==> v.history[i] == file)
  }

  /** `v` is `w` after one more load that began after `w` and saw only `file`. */
  ghost predicate OneMoreLoad<D>(w: World<D>, v: World<D>, t: Thread, file: File<D>, c: Cache<D>,
                                 answer: Result<D, Invalid>) {
    && Quiet(w, v, file) && v.lock == None && v.PhaseOf(t).Idle? && v.cache == c
    && |v.finished| == |w.finished| + 1
    && (forall i :: 0 <= i < |w.finished| ==> v.finished[i] == w.finished[i])
    && var f := v.finished[|w.finished|];
       |w.history| <= f.begun <= f.ended < |v.history| && f.answer == answer
  }

  lemma Unroll<D>(w: World<D>, t: Thread)
    ensures Run(w, AloneFrom(t))
         == After(After(After(After(After(w, Stat(t)), Acquire(t)), Check(t)), Read(t)), Store(t))
  {
    var none: seq<Step<D>> := [];
    RunCons(w, Stat(t), [Acquire(t)] + ([Check(t)] + ([Read(t)] + ([Store(t)] + none))));
    var w1 := After(w, Stat(t));
    RunCons(w1, Acquire(t), [Check(t)] + ([Read(t)] + ([Store(t)] + none)));
    var w2 := After(w1, Acquire(t));
    RunCons(w2, Check(t), [Read(t)] + ([Store(t)] + none));
    var w3 := After(w2, Check(t));
    RunCons(w3, Read(t), [Store(t)] + none);
    RunCons(After(w3, Read(t)), Store(t), none);
  }

  /** A thread that runs alone does to the cache, and answers, what `JsonUsersFile.Load` does. */
  lemma AloneIsLoad<D>(w: World<D>, t: Thread)
    requires |w.history| > 0 && w.lock == None && w.PhaseOf(t).Idle?
    ensures var file := w.history[w.Now()];
            var (c, answer) := if file.Absent? then (w.cache, Err(CannotStat)) else Critical(w.cache, file.stamp, file);
            OneMoreLoad(w, Run(w, AloneFrom(t)), t, file, c, answer)
  {
    Unroll(w, t);
    if w.history[w.Now()].Absent? {
      AloneAbsent(w, t);
    } else {
      AlonePresent(w, t, w.history[w.Now()]);
    }
  }

  lemma AloneAbsent<D>(w: World<D>, t: Thread)
    requires |w.history| > 0 && w.lock == None && w.PhaseOf(t).Idle? && w.history[w.Now()].Absent?
    ensures OneMoreLoad(w, After(After(After(After(After(w, Stat(t)), Acquire(t)), Check(t)), Read(t)), Store(t)),
                        t, Absent, w.cache, Err(CannotStat))
  {
    var w1 := After(w, Stat(t));
    assert OneMoreLoad(w, w1, t, Absent, w.cache, Err(CannotStat));
    assert After(w1, Acquire(t)) == w1 && After(w1, Check(t)) == w1;
    assert After(w1, Read(t)) == w1 && After(w1, Store(t)) == w1;
  }

  lemma AlonePresent<D>(w: World<D>, t: Thread, file: File<D>)
    requires |w.history| > 0 && w.lock == None && w.PhaseOf(t).Idle? && file.Present? && w.history[w.Now()] == file
    ensures var (c, answer) := Critical(w.cache, file.stamp, file);
            OneMoreLoad(w, After(After(After(After(After(w, Stat(t)), Acquire(t)), Check(t)), Read(t)), Store(t)),
                        t, file, c, answer)
  {
    var w1 := After(w, Stat(t));
    assert w1 == Tick(w).Move(t, Waiting(|w.history|, file.stamp));
    var w2 := After(w1, Acquire(t));
    assert w2.PhaseOf(t) == Holding(|w.history|, file.stamp) && w2.lock == Some(t)
        && w2.history == w.history + [file, file] && w2.finished == w.finished && w2.cache == w.cache;
    AloneInside(w2, t, file);
  }

  /** What a load does from the lock on, when it sees only `file`. */
  ghost predicate LoadedInside<D>(w: World<D>, v: World<D>, t: Thread, file: File<D>)
    requires file.Present?
  {
    && Quiet(w, v, file) && v.lock == None && v.PhaseOf(t).Idle?
    && |v.finished| == |w.finished| + 1
    && (forall i :: 0 <= i < |w.finished| ==> v.finished[i] == w.finished[i])
    && w.PhaseOf(t).Holding? && v.finished[|w.finished|].begun == w.PhaseOf(t).at
    && v.finished[|w.finished|].begun <= v.finished[|w.finished|].ended < |v.history|
    && (v.cache, v.finished[|w.finished|].answer) == Critical(w.cache, file.stamp, file)
  }

  lemma AloneInside<D>(w: World<D>, t: Thread, file: File<D>)
    requires |w.history| > 0 && w.history[w.Now()] == file && file.Present?
    requires w.PhaseOf(t).Holding? && w.PhaseOf(t).stamp == file.stamp && w.PhaseOf(t).at < |w.history|
    ensures LoadedInside(w, After(After(After(w, Check(t)), Read(t)), Store(t)), t, file)
  {
    if Stale(w.cache, file.stamp) {
      AloneMiss(w, t, file);
    } else {
      var w1 := After(w, Check(t));
      assert After(w1, Read(t)) == w1 && After(w1, Store(t)) == w1;
    }
  }

  lemma AloneMiss<D>(w: World<D>, t: Thread, file: File<D>)
    requires |w.history| > 0 && w.history[w.Now()] == file && file.Present? && Stale(w.cache, file.stamp)
    requires w.PhaseOf(t).Holding? && w.PhaseOf(t).stamp == file.stamp && w.PhaseOf(t).at < |w.history|
    ensures LoadedInside(w, After(After(After(w, Check(t)), Read(t)), Store(t)), t, file)
  {
    var w1 := After(w, Check(t));
    assert w1.PhaseOf(t) == Reading(w.PhaseOf(t).at, file.stamp) && w1.history == w.history + [file];
    var w2 := After(w1, Read(t));
    assert Quiet(w, w2, file);
    if file.parsed == None {
      assert After(w2, Store(t)) == w2;
    }
  }

  /******* Exactly which edits the cache copes with *******/

  function EditOf<D>(s: Step<D>): seq<File<D>> {
    if s.Edit? then [s.file] else []
  }

  /** The edits of a schedule, in order. */
  function EditsOf<D>(steps: seq<Step<D>>): seq<File<D>> {
    if steps == [] then [] else EditOf(steps[0]) + EditsOf(steps[1..])
  }

  lemma AddEdits<D>(a: seq<File<D>>, b: seq<File<D>>, c: seq<File<D>>)
    ensures (a + b) + c == a + (b + c)
  {
  }

  /** Instant i shows version `at[i]`, and versions only move on. */
  ghost predicate Stretches<D>(history: seq<File<D>>, versions: seq<File<D>>, at: seq<nat>) {
    && |at| == |history| > 0
    && (forall i :: 0 <= i < |at| ==> at[i] < |versions| && history[i] == versions[at[i]])
    && (forall i, j :: 0 <= i <= j < |at| ==> at[i] <= at[j])
    && at[|at| - 1] == |versions| - 1
  }

  lemma AfterHistory<D>(w: World<D>, s: Step<D>)
    requires |w.history| > 0
    ensures After(w, s).history
         == w.history + (if s.Edit? then [s.file] else if Enabled(w, s) then [w.history[|w.history| - 1]] else [])
  {
    assert w.history + [] == w.history;
  }

  lemma StretchOn<D>(history: seq<File<D>>, versions: seq<File<D>>, at: seq<nat>)
    requires Stretches(history, versions, at)
    ensures Stretches(history + [history[|history| - 1]], versions, at + [|versions| - 1])
  {
  }

  lemma StretchNew<D>(history: seq<File<D>>, versions: seq<File<D>>, at: seq<nat>, file: File<D>)
    requires Stretches(history, versions, at)
    ensures Stretches(history + [file], versions + [file], at + [|versions|])
  {
  }

  lemma {:induction false} StepStretches<D>(w: World<D>, s: Step<D>, versions: seq<File<D>>,
                                            at: seq<nat>) returns (at': seq<nat>)
    requires Stretches(w.history, versions, at)
    ensures Stretches(After(w, s).history, versions + EditOf(s), at')
  {
    AfterHistory(w, s);
    assert versions + [] == versions && w.history + [] == w.history;
    if s.Edit? {
      StretchNew(w.history, versions, at, s.file);
      at' := at + [|versions|];
    } else if Enabled(w, s) {
      StretchOn(w.history, versions, at);
      at' := at + [|versions| - 1];
    } else {
      at' := at;
    }
  }

  /** The history of a run is its versions, each stretched over the instants it lasted. */
  lemma {:induction false} RunStretches<D>(w: World<D>, steps: seq<Step<D>>, versions: seq<File<D>>, at: seq<nat>)
      returns (at': seq<nat>)
    requires Stretches(w.history, versions, at)
    ensures Stretches(Run(w, steps).history, versions + EditsOf(steps), at')
    decreases |steps|
  {
    if steps == [] {
      assert versions + [] == versions;
      at' := at;
    } else {
      var next := StepStretches(w, steps[0], versions, at);
      at' := RunStretches(After(w, steps[0]), steps[1..], versions + EditOf(steps[0]), next);
      AddEdits(versions, EditOf(steps[0]), EditsOf(steps[1..]));
    }
  }

  lemma StretchedStampsTell<D>(history: seq<File<D>>, versions: seq<File<D>>, at: seq<nat>)
    requires Stretches(history, versions, at) && StampsTell(versions)
    ensures StampsTell(history)
  {
    forall a: nat, r: nat, c: nat | a <= r < c < |history| ensures !Deceives(history, a, r, c) {
      assert at[r] < at[c] ==> !Deceives(versions, at[a], at[r], at[c]);
    }
  }

  function Edits<D>(files: seq<File<D>>): (steps: seq<Step<D>>)
    ensures |steps| == |files| && forall i :: 0 <= i < |files| ==> steps[i] == Edit(files[i])
  {
    seq(|files|, i requires 0 <= i < |files| => Edit(files[i]))
  }

  lemma {:induction false} EditsOfEdits<D>(files: seq<File<D>>)
    ensures EditsOf(Edits(files)) == files
  {
    if files != [] {
      assert Edits(files)[1..] == Edits(files[1..]);
      EditsOfEdits(files[1..]);
    }
  }

  lemma {:induction false} EditsOfAppend<D>(a: seq<Step<D>>, b: seq<Step<D>>)
    ensures EditsOf(a + b) == EditsOf(a) + EditsOf(b)
  {
    if a == [] {
      assert a + b == b;
    } else {
      assert (a + b)[1..] == a[1..] + b;
      EditsOfAppend(a[1..], b);
    }
  }

  lemma {:induction false} RunAppend<D>(w: World<D>, a: seq<Step<D>>, b: seq<Step<D>>)
    ensures Run(w, a + b) == Run(Run(w, a), b)
    decreases |a|
  {
    if a == [] {
      assert a + b == b;
    } else {
      assert (a + b)[1..] == a[1..] + b;
      RunAppend(After(w, a[0]), a[1..], b);
    }
  }

  lemma {:induction false} RunEdits<D>(w: World<D>, files: seq<File<D>>)
    requires |w.history| > 0
    ensures Run(w, Edits(files)) == w.(history := w.history + files)
    decreases |files|
  {
    if files == [] {
      assert w.history + files == w.history;
    } else {
      assert Edits(files)[1..] == Edits(files[1..]);
      RunEdits(After(w, Edit(files[0])), files[1..]);
      assert (w.history + [files[0]]) + files[1..] == w.history + files;
    }
  }

  /** From its stat on, a load that finds the cache empty parses what it is shown and files it
      under the stamp of its stat. */
  lemma Publishes<D>(w: World<D>, t: Thread, at: nat, stamp: Stamp, doc: D)
    requires |w.history| > 0 && w.lock == None && w.cache == Cache(None, None)
    requires w.PhaseOf(t) == Waiting(at, stamp) && Uncached(w.history[|w.history| - 1]) == Ok(doc)
    ensures var v := After(After(After(After(w, Acquire(t)), Check(t)), Read(t)), Store(t));
            && v.cache == Cache(Some(stamp), Some(doc)) && v.lock == None
            && (forall u :: u != t ==> v.PhaseOf(u) == w.PhaseOf(u))
            && |v.history| > 0 && v.history[|v.history| - 1] == w.history[|w.history| - 1]
  {
    var w1 := After(w, Acquire(t));
    var w2 := After(w1, Check(t));
    assert w2.PhaseOf(t) == Reading(at, stamp) && w2.cache == w.cache;
    var w3 := After(w2, Read(t));
    assert w3.PhaseOf(t).Storing? && w3.PhaseOf(t).doc == doc && w3.PhaseOf(t).stamp == stamp;
  }

  /** A load that hits a cache the file has moved on from is not linearized, whatever follows. */
  lemma StaleHit<D>(w: World<D>, t: Thread, stamp: Stamp, doc: D, later: seq<File<D>>)
    requires |w.history| > 0 && w.lock == None && w.PhaseOf(t).Idle?
    requires w.cache == Cache(Some(stamp), Some(doc))
    requires var file := w.history[|w.history| - 1];
             file.Present? && file.stamp == stamp && Uncached(file) != Ok(doc)
    ensures var v := After(After(After(w, Stat(t)), Acquire(t)), Check(t));
            |v.history| > 0 && !AllLinearized(v.(history := v.history + later))
  {
    var file := w.history[|w.history| - 1];
    var w1 := After(w, Stat(t));
    var w2 := After(w1, Acquire(t));
    var v := After(w2, Check(t));
    assert v.history == w.history + [file, file, file];
    var f := Finished(|w.history|, |w.history| + 2, Ok(doc));
    assert v.finished == w.finished + [f];
    var longer := v.history + later;
    assert forall i :: f.begun <= i <= f.ended ==> longer[i] == file;
    assert !Linearized(longer, f);
    assert v.finished[|w.finished|] == f;
  }

  function Load0<D>(): seq<Step<D>> { [Acquire(0), Check(0), Read(0), Store(0)] }

  function Load1<D>(): seq<Step<D>> { [Stat(1), Acquire(1), Check(1)] }

  /** A schedule that one deception among the versions catches out. */
  function Schedule<D>(edits: seq<File<D>>, a: nat, r: nat, c: nat): seq<Step<D>>
    requires a <= r < c <= |edits|
  {
    Edits(edits[..a]) + ([Stat(0)] + (Edits(edits[a..r]) + (Load0()
    + (Edits(edits[r..c]) + (Load1() + Edits(edits[c..]))))))
  }

  lemma {:induction false} EditsThenBlock<D>(files: seq<File<D>>, block: seq<Step<D>>, rest: seq<Step<D>>)
    requires EditsOf(block) == []
    ensures EditsOf(Edits(files) + (block + rest)) == files + EditsOf(rest)
  {
    EditsOfEdits(files);
    EditsOfAppend(block, rest);
    EditsOfAppend(Edits(files), block + rest);
  }

  lemma {:induction false} TailEdits<D>(edits: seq<File<D>>, r: nat, c: nat)
    requires r <= c <= |edits|
    ensures EditsOf(Edits(edits[r..c]) + (Load1() + Edits(edits[c..]))) == edits[r..c] + edits[c..]
  {
    NoEdits<D>();
    EditsOfEdits(edits[c..]);
    EditsThenBlock(edits[r..c], Load1(), Edits(edits[c..]));
  }

  lemma {:induction false} ScheduleEdits<D>(edits: seq<File<D>>, a: nat, r: nat, c: nat)
    requires a <= r < c <= |edits|
    ensures EditsOf(Schedule(edits, a, r, c)) == edits
  {
    var tail := Edits(edits[r..c]) + (Load1() + Edits(edits[c..]));
    NoEdits<D>();
    TailEdits(edits, r, c);
    EditsThenBlock(edits[a..r], Load0(), tail);
    EditsThenBlock(edits[..a], [Stat(0)], Edits(edits[a..r]) + (Load0() + tail));
    FourParts(edits, a, r, c);
  }

  lemma FourParts<D>(s: seq<File<D>>, a: nat, r: nat, c: nat)
    requires a <= r <= c <= |s|
    ensures s[..a] + (s[a..r] + (s[r..c] + s[c..])) == s
  {
  }

  lemma NoEdits<D>()
    ensures EditsOf<D>([Stat(0)]) == [] && EditsOf<D>(Load0()) == [] && EditsOf<D>(Load1()) == []
  {
    var load: seq<Step<D>> := Load0();
    assert load[1..] == [Check(0), Read(0), Store(0)] && load[1..][1..] == [Read(0), Store(0)];
    assert load[1..][1..][1..] == [Store(0)];
    var hit: seq<Step<D>> := Load1();
    assert hit[1..] == [Acquire(1), Check(1)] && hit[1..][1..] == [Check(1)];
  }

  lemma {:induction false} RunLoad0<D>(w: World<D>)
    ensures Run(w, Load0()) == After(After(After(After(w, Acquire(0)), Check(0)), Read(0)), Store(0))
  {
    var none: seq<Step<D>> := [];
    assert Load0<D>() == [Acquire(0)] + ([Check(0)] + ([Read(0)] + ([Store(0)] + none)));
    RunCons(w, Acquire(0), [Check(0)] + ([Read(0)] + ([Store(0)] + none)));
    var w1 := After(w, Acquire(0));
    RunCons(w1, Check(0), [Read(0)] + ([Store(0)] + none));
    var w2 := After(w1, Check(0));
    RunCons(w2, Read(0), [Store(0)] + none);
    RunCons(After(w2, Read(0)), Store(0), none);
  }

  lemma {:induction false} RunLoad1<D>(w: World<D>)
    ensures Run(w, Load1()) == After(After(After(w, Stat(1)), Acquire(1)), Check(1))
  {
    var none: seq<Step<D>> := [];
    assert Load1<D>() == [Stat(1)] + ([Acquire(1)] + ([Check(1)] + none));
    RunCons(w, Stat(1), [Acquire(1)] + ([Check(1)] + none));
    var w1 := After(w, Stat(1));
    RunCons(w1, Acquire(1), [Check(1)] + none);
    RunCons(After(w1, Acquire(1)), Check(1), none);
  }

  /** After the edits from version a to version r the file is at version r. */
  lemma LastAfterEdits<D>(history: seq<File<D>>, file: File<D>, edits: seq<File<D>>, a: nat, r: nat)
    requires a <= r <= |edits| && history != [] && history[|history| - 1] == ([file] + edits)[a]
    ensures var h := history + edits[a..r]; h[|h| - 1] == ([file] + edits)[r]
  {
  }

  lemma {:induction false} RunStat<D>(w: World<D>, file: File<D>)
    requires |w.history| > 0 && w.history[|w.history| - 1] == file && file.Present? && w.PhaseOf(0).Idle?
    ensures Run(w, [Stat(0)]) == w.(history := w.history + [file]).Move(0, Waiting(|w.history|, file.stamp))
  {
    var stat, none: seq<Step<D>> := [Stat(0)], [];
    RunCons(w, Stat(0), none);
    assert stat + none == stat;
  }

  /** The world once thread 0 has the stamp of version a and the file is at version r. */
  ghost predicate Stamped<D>(w: World<D>, stamp: Stamp, file: File<D>) {
    && w.lock == None && w.cache == Cache(None, None) && w.PhaseOf(1).Idle?
    && w.PhaseOf(0).Waiting? && w.PhaseOf(0).stamp == stamp
    && |w.history| > 0 && w.history[|w.history| - 1] == file
  }

  lemma {:induction false} FirstLoadWaits<D>(file: File<D>, edits: seq<File<D>>, a: nat, r: nat)
    requires a <= r <= |edits| && ([file] + edits)[a].Present?
    ensures var w := Run(Run(Run(Start(file), Edits(edits[..a])), [Stat(0)]), Edits(edits[a..r]));
            Stamped(w, ([file] + edits)[a].stamp, ([file] + edits)[r])
  {
    var w0, stated := Start(file), ([file] + edits)[a];
    RunEdits(w0, edits[..a]);
    LastAfterEdits([file], file, edits, 0, a);
    var w1 := Run(w0, Edits(edits[..a]));
    RunStat(w1, stated);
    var w2 := Run(w1, [Stat(0)]);
    RunEdits(w2, edits[a..r]);
    LastAfterEdits(w2.history, file, edits, a, r);
  }

  /** The parse at version r is filed under the stamp of version a. */
  lemma {:induction false} FirstLoadPublishes<D>(w: World<D>, stamp: Stamp, file: File<D>)
    requires Stamped(w, stamp, file) && Uncached(file).Ok?
    ensures var v := Run(w, Load0());
            && v.cache == Cache(Some(stamp), Some(Uncached(file).value)) && v.lock == None && v.PhaseOf(1).Idle?
            && |v.history| > 0 && v.history[|v.history| - 1] == file
  {
    RunLoad0(w);
    Publishes(w, 0, w.PhaseOf(0).at, stamp, Uncached(file).value);
  }

  lemma {:induction false} SecondLoadIsCaught<D>(w: World<D>, stamp: Stamp, doc: D, file: File<D>, edits: seq<File<D>>,
                                                 r: nat, c: nat)
    requires |w.history| > 0 && w.lock == None && w.PhaseOf(1).Idle? && w.cache == Cache(Some(stamp), Some(doc))
    requires r <= c <= |edits| && w.history[|w.history| - 1] == ([file] + edits)[r]
    requires var last := ([file] + edits)[c]; last.Present? && last.stamp == stamp && Uncached(last) != Ok(doc)
    ensures !AllLinearized(Run(Run(Run(w, Edits(edits[r..c])), Load1()), Edits(edits[c..])))
  {
    RunEdits(w, edits[r..c]);
    LastAfterEdits(w.history, file, edits, r, c);
    HitIsCaught(Run(w, Edits(edits[r..c])), stamp, doc, edits[c..]);
  }

  lemma {:induction false} HitIsCaught<D>(w: World<D>, stamp: Stamp, doc: D, later: seq<File<D>>)
    requires |w.history| > 0 && w.lock == None && w.PhaseOf(1).Idle? && w.cache == Cache(Some(stamp), Some(doc))
    requires var last := w.history[|w.history| - 1]; last.Present? && last.stamp == stamp && Uncached(last) != Ok(doc)
    ensures !AllLinearized(Run(Run(w, Load1()), Edits(later)))
  {
    RunLoad1(w);
    StaleHit(w, 1, stamp, doc, later);
    RunEdits(Run(w, Load1()), later);
  }

  /** A deception among the versions leads some schedule of the same edits to an unlinearized load. */
  lemma {:induction false} DeceptionIsFound<D>(file: File<D>, edits: seq<File<D>>, a: nat, r: nat, c: nat)
    requires a <= r < c <= |edits| && Deceives([file] + edits, a, r, c)
    ensures !AllLinearized(Run(Start(file), Schedule(edits, a, r, c)))
  {
    var first, parsed := ([file] + edits)[a], ([file] + edits)[r];
    ScheduleRuns(Start(file), edits, a, r, c);
    FirstLoadWaits(file, edits, a, r);
    var w := Run(Run(Run(Start(file), Edits(edits[..a])), [Stat(0)]), Edits(edits[a..r]));
    FirstLoadPublishes(w, first.stamp, parsed);
    SecondLoadIsCaught(Run(w, Load0()), first.stamp, Uncached(parsed).value, file, edits, r, c);
  }

  lemma {:induction false} ScheduleRuns<D>(w: World<D>, edits: seq<File<D>>, a: nat, r: nat, c: nat)
    requires a <= r < c <= |edits|
    ensures var w1 := Run(Run(Run(Run(w, Edits(edits[..a])), [Stat(0)]), Edits(edits[a..r])), Load0());
            Run(w, Schedule(edits, a, r, c))
            == Run(Run(Run(w1, Edits(edits[r..c])), Load1()), Edits(edits[c..]))
  {
    var last := Edits(edits[c..]);
    var hit := Load1() + last;
    var tail := Edits(edits[r..c]) + hit;
    var load := Load0() + tail;
    var mid := Edits(edits[a..r]) + load;
    RunAppend(w, Edits(edits[..a]), [Stat(0)] + mid);
    var u := Run(w, Edits(edits[..a]));
    RunAppend(u, [Stat(0)], mid);
    u := Run(u, [Stat(0)]);
    RunAppend(u, Edits(edits[a..r]), load);
    u := Run(u, Edits(edits[a..r]));
    RunAppend(u, Load0(), tail);
    u := Run(u, Load0());
    RunAppend(u, Edits(edits[r..c]), hit);
    u := Run(u, Edits(edits[r..c]));
    RunAppend(u, Load1(), last);
  }

  /** The cache copes with a list of edits, in every schedule of any loads, exactly when a stamp that
      is seen again still tells what was parsed since it was first seen. */
  lemma {:induction false} LinearizableIff<D(!new)>(file: File<D>, edits: seq<File<D>>)
    ensures (forall steps :: EditsOf(steps) == edits ==> AllLinearized(Run(Start(file), steps)))
        <==> StampsTell([file] + edits)
  {
    if StampsTell([file] + edits) {
      forall steps | EditsOf(steps) == edits ensures AllLinearized(Run(Start(file), steps)) {
        TellingStampsSuffice(file, steps);
      }
    } else {
      var a: nat, r: nat, c: nat :| a <= r < c < |[file] + edits| && Deceives([file] + edits, a, r, c);
      DeceptionIsFound(file, edits, a, r, c);
      ScheduleEdits(edits, a, r, c);
      assert EditsOf(Schedule(edits, a, r, c)) == edits;
    }
  }

  lemma {:induction false} TellingStampsSuffice<D>(file: File<D>, steps: seq<Step<D>>)
    requires StampsTell([file] + EditsOf(steps))
    ensures AllLinearized(Run(Start(file), steps))
  {
    var at := RunStretches(Start(file), steps, [file], [0]);
    StretchedStampsTell(Run(Start(file), steps).history, [file] + EditsOf(steps), at);
    LoadsAreLinearizable(file, steps);
  }

  /** No stamp is ever seen again, however the file changed in between: enough, and what inode,
      times and size are there for. */
  ghost predicate StampsAreFresh<D>(versions: seq<File<D>>) {
    forall i, j :: 0 <= i < j < |versions| && versions[i].Present? && versions[j].Present? ==>
      versions[i].stamp != versions[j].stamp
  }

  lemma FreshStampsTell<D>(versions: seq<File<D>>)
    requires StampsAreFresh(versions)
    ensures StampsTell(versions)
  {
  }

  /** A file that goes away and comes back untouched is served correctly. */
  lemma {:induction false} AwayAndBackIsServed<D(!new)>(s: Stamp, d: D, steps: seq<Step<D>>)
    requires EditsOf(steps) == [Absent, Present(s, Some(d))]
    ensures AllLinearized(Run(Start(Present(s, Some(d))), steps))
  {
    LinearizableIff(Present(s, Some(d)), [Absent, Present(s, Some(d))]);
  }

  /** A rollback to a file with its old stamp is not, although no stamp names two documents: a load
      that stats the old file and parses the new one files the new document under the old stamp. */
  lemma {:induction false} RolledBackFileIsMissed<D(!new)>(s: Stamp, s': Stamp, before: D, between: D)
    requires before != between
    ensures exists steps :: EditsOf(steps) == [Present(s', Some(between)), Present(s, Some(before))]
                            && !AllLinearized(Run(Start(Present(s, Some(before))), steps))
  {
    var file, edits := Present(s, Some(before)), [Present(s', Some(between)), Present(s, Some(before))];
    assert Deceives([file] + edits, 0, 1, 2);
    LinearizableIff(file, edits);
  }

  /** Nor is an edit that brings the old stamp back: it goes unseen. */
  lemma ReusedStampServesStale<D>(before: D, after: D, s: Stamp)
    requires before != after
    ensures var v := Run(Start(Present(s, Some(before))), AloneFrom(0));
            var w := Run(After(v, Edit(Present(s, Some(after)))), AloneFrom(0));
            !StampsTell(w.history) && |w.finished| == 2 && !Linearized(w.history, w.finished[1])
  {
    var w0 := Start(Present(s, Some(before)));
    AloneIsLoad(w0, 0);
    var v := Run(w0, AloneFrom(0));
    var edited := After(v, Edit(Present(s, Some(after))));
    AloneIsLoad(edited, 0);
    var w := Run(edited, AloneFrom(0));
    RunKeepsHistory(edited, AloneFrom(0));
    RunKeepsHistory(w0, AloneFrom(0));
    assert w.history[0] == Present(s, Some(before));
    assert w.history[|v.history|] == Present(s, Some(after));
    assert Deceives(w.history, 0, 0, |v.history|);
  }
}
