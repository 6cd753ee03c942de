/** The lock-protected roster cache of one process with many threads.  A version is the
    number of writes the bucket object had seen; other processes write at any time. */
module RosterCache {
  import opened Base

  datatype Entry = Entry(version: nat, stored: Instant, expires: Instant)

  /** The thread that holds the lock inside `read`, and what it has downloaded so far. */
  datatype Holder = Holder(id: Uuid, version: Option<nat>)

  /** A call of `read`.  `floor` is the newest version any update of this process had
      returned with when the call began; `age` is how long ago a cached answer was stored. */
  datatype Reading =
    | Waiting(floor: nat)
    | Served(floor: nat, version: nat, age: Option<int>)
    | Failed(floor: nat)

  datatype World = World(
    now: Instant,
    newest: nat,
    cache: Option<Entry>,
    holder: Option<Holder>,
    updates: map<Uuid, nat>,
    returned: nat,
    readings: map<Uuid, Reading>)

  datatype Event =
    | Pass(delay: nat)
    | RivalWrites
    /** An update of this process writes, without the lock, and must still invalidate. */
    | Writes(id: Uuid)
    /** It takes the lock, clears the cache, releases the lock and returns. */
    | Returns(id: Uuid)
    /** A lost conditional write clears the cache as well. */
    | Clears
    | BeginRead(id: Uuid)
    | Take(id: Uuid, refresh: bool)
    | Download
    | DownloadFails
    /** The holder fills the cache, releases the lock and returns. */
    | Keep

  function Initial(now: Instant, newest: nat): World {
    World(now, newest, None, None, map[], 0, map[])
  }

  /** A step that needs the lock does nothing while another thread holds it. */
  function Step(ttl: nat, w: World, e: Event): World {
    match e
    case Pass(delay) => w.(now := w.now + delay)
    case RivalWrites => w.(newest := w.newest + 1)
    case Writes(id) => if id in w.updates then w else w.(newest := w.newest + 1, updates := w.updates[id := w.newest + 1])
    case Returns(id) =>
      if w.holder.None? && id in w.updates
      then w.(cache := None, returned := if w.updates[id] > w.returned then w.updates[id] else w.returned,
              updates := w.updates - {id})
      else w
    case Clears => if w.holder.None? then w.(cache := None) else w
    case BeginRead(id) => if id in w.readings then w else w.(readings := w.readings[id := Waiting(w.returned)])
    case Take(id, refresh) =>
      if w.holder.None? && id in w.readings && w.readings[id].Waiting? then
        if !refresh && w.cache.Some? && w.now < w.cache.value.expires
        then Answer(w, id, Served(w.readings[id].floor, w.cache.value.version, Some(w.now - w.cache.value.stored)))
        else w.(holder := Some(Holder(id, None)))
      else w
    case Download =>
      if w.holder.Some? && w.holder.value.version.None?
      then w.(holder := Some(Holder(w.holder.value.id, Some(w.newest))))
      else w
    case DownloadFails =>
      if w.holder.Some? && w.holder.value.version.None? && w.holder.value.id in w.readings
      then Answer(w.(holder := None), w.holder.value.id, Failed(w.readings[w.holder.value.id].floor))
      else w
    case Keep =>
      if w.holder.Some? && w.holder.value.version.Some? && w.holder.value.id in w.readings
      then var v := w.holder.value.version.value;
           Answer(w.(cache := Some(Entry(v, w.now, w.now + ttl)), holder := None), w.holder.value.id,
                  Served(w.readings[w.holder.value.id].floor, v, None))
      else w
  }

  function Answer(w: World, id: Uuid, r: Reading): World {
    w.(readings := w.readings[id := r])
  }

  function Run(ttl: nat, w: World, run: seq<Event>): World
    decreases |run|
  {
    if run == [] then w else Step(ttl, Run(ttl, w, run[..|run| - 1]), run[|run| - 1])
  }

  ghost predicate Inv(ttl: nat, w: World) {
    && w.returned <= w.newest
    && (w.cache.Some? ==>
          && w.returned <= w.cache.value.version <= w.newest
          && w.cache.value.stored <= w.now && w.cache.value.expires == w.cache.value.stored + ttl)
    && (w.holder.Some? && w.holder.value.version.Some? ==> w.returned <= w.holder.value.version.value <= w.newest)
    && (forall id :: id in w.updates ==> w.updates[id] <= w.newest)
    && (forall id :: id in w.readings ==> ReadingOk(ttl, w, w.readings[id]))
  }

  predicate ReadingOk(ttl: nat, w: World, r: Reading) {
    && r.floor <= w.returned
    && (r.Served? ==> r.floor <= r.version <= w.newest && (r.age.Some? ==> 0 <= r.age.value < ttl))
  }

  lemma {:induction false} RunInv(ttl: nat, now: Instant, newest: nat, run: seq<Event>)
    ensures Inv(ttl, Run(ttl, Initial(now, newest), run))
  {
    if run != [] {
      RunInv(ttl, now, newest, run[..|run| - 1]);
      StepInv(ttl, Run(ttl, Initial(now, newest), run[..|run| - 1]), run[|run| - 1]);
    }
  }

  lemma StepInv(ttl: nat, w: World, e: Event)
    requires Inv(ttl, w)
    ensures Inv(ttl, Step(ttl, w, e))
  {
    var after := Step(ttl, w, e);
    forall id | id in after.readings ensures ReadingOk(ttl, after, after.readings[id]) {
      assert id in w.readings ==> ReadingOk(ttl, w, w.readings[id]);
    }
  }

  lemma StepKeeps(ttl: nat, w: World, e: Event, id: Uuid)
    ensures w.returned <= Step(ttl, w, e).returned
    ensures id in w.readings ==> id in Step(ttl, w, e).readings && Step(ttl, w, e).readings[id].floor == w.readings[id].floor
  {
  }

  lemma {:induction false} ReturnedGrows(ttl: nat, w: World, run: seq<Event>, i: nat, id: Uuid)
    requires i <= |run|
    ensures Run(ttl, w, run[..i]).returned <= Run(ttl, w, run).returned
    ensures id in Run(ttl, w, run[..i]).readings ==>
              && id in Run(ttl, w, run).readings
              && Run(ttl, w, run).readings[id].floor == Run(ttl, w, run[..i]).readings[id].floor
    decreases |run|
  {
    if i == |run| {
      assert run[..i] == run;
    } else {
      assert run[..|run| - 1][..i] == run[..i];
      ReturnedGrows(ttl, w, run[..|run| - 1], i, id);
      StepKeeps(ttl, Run(ttl, w, run[..|run| - 1]), run[|run| - 1], id);
    }
  }

  /** A read that begins after an update of the same process returned is served a version
      at least as new as the one the update wrote, even when another thread was in the
      middle of its download while the update wrote. */
  lemma ReadYourWrites(ttl: nat, now: Instant, newest: nat, run: seq<Event>, i: nat, j: nat, u: Uuid, r: Uuid)
    requires i < j < |run| && run[i] == Returns(u) && run[j] == BeginRead(r)
    requires var before := Run(ttl, Initial(now, newest), run[..i]); before.holder.None? && u in before.updates
    requires r !in Run(ttl, Initial(now, newest), run[..j]).readings
    requires r in Run(ttl, Initial(now, newest), run).readings && Run(ttl, Initial(now, newest), run).readings[r].Served?
    ensures Run(ttl, Initial(now, newest), run[..i]).updates[u] <= Run(ttl, Initial(now, newest), run).readings[r].version
  {
    var start := Initial(now, newest);
    NextStep(ttl, start, run, i);
    NextStep(ttl, start, run, j);
    assert run[..j][..i + 1] == run[..i + 1];
    ReturnedGrows(ttl, start, run[..j], i + 1, r);
    ReturnedGrows(ttl, start, run, j + 1, r);
    RunInv(ttl, now, newest, run);
  }

  lemma NextStep(ttl: nat, w: World, run: seq<Event>, i: nat)
    requires i < |run|
    ensures Run(ttl, w, run[..i + 1]) == Step(ttl, Run(ttl, w, run[..i]), run[i])
  {
    assert run[..i + 1][..i] == run[..i];
  }

  /** The version an update wrote is one that no earlier write produced, and the object
      has it from then on. */
  lemma WrittenVersionIsNewest(ttl: nat, w: World, id: Uuid)
    requires Inv(ttl, w) && id !in w.updates
    ensures var after := Step(ttl, w, Writes(id));
            && after.updates[id] == after.newest
            && (w.cache.Some? ==> w.cache.value.version < after.updates[id])
            && (forall r :: r in w.readings && w.readings[r].Served? ==> w.readings[r].version < after.updates[id])
  {
  }

  /** A cached answer was stored less than the time-to-live ago; every other answer was
      downloaded by the reading thread itself. */
  lemma CachedAnswersAreFresh(ttl: nat, now: Instant, newest: nat, run: seq<Event>, r: Uuid)
    requires r in Run(ttl, Initial(now, newest), run).readings
    ensures var reading := Run(ttl, Initial(now, newest), run).readings[r];
            reading.Served? && reading.age.Some? ==> 0 <= reading.age.value < ttl
  {
    RunInv(ttl, now, newest, run);
  }

  /** The promise is to the process's own updates: a write of another process stays unseen
      for as long as the cached entry lasts. */
  lemma RivalWritesAreSeenLate(ttl: nat, w: World, delay: nat, r: Uuid)
    requires Inv(ttl, w) && w.holder.None? && r in w.readings && w.readings[r].Waiting?
    requires w.cache.Some?
    ensures var after := Step(ttl, Step(ttl, Step(ttl, w, RivalWrites), Pass(delay)), Take(r, false));
            (after.readings[r].Served? && after.readings[r].version < after.newest)
            <==> w.now + delay < w.cache.value.stored + ttl
  {
  }

  /** A refresh never answers from the cache: once the thread has the lock, it is served the
      version that was newest when it downloaded, and so is the cache. */
  lemma RefreshesAreCurrent(ttl: nat, w: World, r: Uuid, refresh: bool, writes: nat, delay: nat)
    requires w.holder.None? && r in w.readings && w.readings[r].Waiting?
    requires refresh || w.cache == None || w.now >= w.cache.value.expires
    ensures var late := Step(ttl, Step(ttl, w, Take(r, refresh)), Pass(delay)).(newest := w.newest + writes);
            var after := Step(ttl, Step(ttl, late, Download), Keep);
            && after.readings[r] == Served(w.readings[r].floor, w.newest + writes, None)
            && after.cache == Some(Entry(w.newest + writes, w.now + delay, w.now + delay + ttl)) && after.holder == None
  {
  }
}
