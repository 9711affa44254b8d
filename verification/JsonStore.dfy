/** The JSON file behind the broker's state: one lock, a strict load before every update, and a
    save that writes a temporary file and then renames it over the store file. */
module JsonStore {
  import opened Options

  datatype Json = Null | Scalar(text: string) | List(items: seq<Json>) | Object(members: map<string, Json>)

  /** The loaded store: each bucket by name. */
  type State = map<string, map<string, Json>>

  const BUCKETS: seq<string> :=
    ["authorizationCodes", "accessTokens", "refreshTokens", "assetGrants", "pendingSsoStates"]

  /** What a path on disk may hold. `Undecodable` bytes are not UTF-8. */
  datatype Content = Missing | Unreadable | Undecodable | Holds(text: string)

  /** `json.dumps` of a store and `json.loads`, whose internals are not part of this model. */
  datatype Codec = Codec(dumps: State -> string, loads: string -> Option<Json>)

  function AsJson(s: State): Json {
    Object(map k | k in s :: Object(s[k]))
  }

  ghost predicate ReadsBack(c: Codec) {
    forall s: State :: c.loads(c.dumps(s)) == Some(AsJson(s))
  }

  function InitialState(): State {
    map k | k in BUCKETS :: map[]
  }

  // ---------------------------------------------------------------- merging and loading

  predicate IsBucket(parsed: Json, key: string) {
    parsed.Object? && key in parsed.members && parsed.members[key].Object?
  }

  predicate WellFormedFor(parsed: Json, names: seq<string>) {
    parsed.Object? && forall k :: k in names && k in parsed.members ==> parsed.members[k].Object?
  }

  function BucketsOf(parsed: Json, names: seq<string>): State {
    map k | k in names :: if IsBucket(parsed, k) then parsed.members[k].members else map[]
  }

  /** A document an update accepts: an object whose known buckets, where present, are objects. */
  predicate WellFormed(parsed: Json) {
    WellFormedFor(parsed, BUCKETS)
  }

  /** The five known buckets of a document, an absent or malformed one read as empty. */
  function KnownBuckets(parsed: Json): State {
    BucketsOf(parsed, BUCKETS)
  }

  datatype Loaded = Loaded(state: State) | LoadError | DecodeError

  /** A load of existing content. Undecodable bytes raise an error the lenient load does not catch. */
  function LoadOf(c: Codec, file: Content, strict: bool): Loaded {
    match file
    case Holds(text) =>
      var parsed := c.loads(text);
      if parsed.None? then (if strict then LoadError else Loaded(InitialState()))
      else if strict && !WellFormed(parsed.value) then LoadError
      else Loaded(KnownBuckets(parsed.value))
    case Undecodable => DecodeError
    case _ => if strict then LoadError else Loaded(InitialState())
  }

  /** The store file after `_ensure_file`, which creates only a missing file. */
  function Ensured(c: Codec, file: Content): Content {
    if file == Missing then Holds(c.dumps(InitialState())) else file
  }

  // ---------------------------------------------------------------- updates

  /** What an updater does to the loaded state: change it, or raise. */
  datatype Updated = Returned(state: State) | Raised

  type Updater = State -> Updated

  /** What a later load sees of a saved state: the five known buckets. */
  function Normal(s: State): State {
    KnownBuckets(AsJson(s))
  }

  function Committed(s: State, u: Updater): State {
    match u(s)
    case Returned(next) => Normal(next)
    case Raised => s
  }

  function Fold(s: State, updaters: seq<Updater>): State {
    if updaters == [] then s
    else Committed(Fold(s, updaters[..|updaters| - 1]), updaters[|updaters| - 1])
  }

  lemma SavedStateLoads(c: Codec, s: State, strict: bool)
    requires ReadsBack(c)
    ensures LoadOf(c, Holds(c.dumps(s)), strict) == Loaded(Normal(s))
  {
    assert c.loads(c.dumps(s)) == Some(AsJson(s));
  }

  /** An updater that leaves exactly the five buckets, as all of the broker's do, loses nothing. */
  lemma FiveBucketsAreKept(s: State)
    requires forall k :: k in s <==> k in BUCKETS
    ensures Normal(s) == s
  {
    assert forall k :: k in s ==> IsBucket(AsJson(s), k);
  }

  // ---------------------------------------------------------------- the store as a state machine

  datatype Phase =
    | Holding
    | Read(state: State)
    | Writing(state: State, updater: Updater, written: nat)
    | Finished

  datatype Disk = Disk(file: Content, tmp: Content)

  /** The disk, the lock, where each thread inside `read` or `update` stands, and, for the
      proof, the updaters whose saves were renamed into place. */
  datatype Machine = Machine(disk: Disk, lock: Option<nat>, threads: map<nat, Phase>, committed: seq<Updater>)

  datatype Step =
    | Acquire(thread: nat)
    | LoadStrictly(thread: nat)
    | RunUpdater(thread: nat, updater: Updater)
    | Write(thread: nat, upTo: nat)
    | Rename(thread: nat)
    | ReadLeniently(thread: nat)
    | Fail(thread: nat)  // a full disk, or refused permissions: the error propagates
    | Release(thread: nat)
    | Crash              // the process stops and starts again; only the disk survives

  predicate Enabled(c: Codec, m: Machine, s: Step) {
    match s
    case Crash => true
    case Acquire(t) => m.lock.None? && t !in m.threads
    case LoadStrictly(t) => t in m.threads && m.threads[t].Holding?
    case RunUpdater(t, _) => t in m.threads && m.threads[t].Read?
    case Write(t, n) =>
      && t in m.threads && m.threads[t].Writing?
      && m.threads[t].written < n <= |c.dumps(m.threads[t].state)|
    case Rename(t) =>
      && t in m.threads && m.threads[t].Writing?
      && m.threads[t].written == |c.dumps(m.threads[t].state)|
    case ReadLeniently(t) => t in m.threads && m.threads[t].Holding?
    case Fail(t) => t in m.threads && !m.threads[t].Finished?
    case Release(t) => t in m.threads && m.threads[t].Finished?
  }

  function Leave(m: Machine, t: nat): Machine {
    m.(lock := None, threads := m.threads - {t})
  }

  function Enter(m: Machine, t: nat, p: Phase): Machine {
    m.(threads := m.threads[t := p])
  }

  function Next(c: Codec, m: Machine, s: Step): Machine
    requires Enabled(c, m, s)
  {
    match s
    case Crash => m.(lock := None, threads := map[])
    case Acquire(t) => Enter(m, t, Holding).(lock := Some(t))
    case LoadStrictly(t) =>
      var file := Ensured(c, m.disk.file);
      var m' := m.(disk := m.disk.(file := file));
      (match LoadOf(c, file, true)
       case Loaded(state) => Enter(m', t, Read(state))
       case _ => Leave(m', t))
    case RunUpdater(t, u) =>
      (match u(m.threads[t].state)
       case Returned(next) => Enter(m, t, Writing(next, u, 0)).(disk := m.disk.(tmp := Holds("")))
       case Raised => Leave(m, t))
    case Write(t, n) =>
      var p := m.threads[t];
      Enter(m, t, p.(written := n)).(disk := m.disk.(tmp := Holds(c.dumps(p.state)[..n])))
    case Rename(t) =>
      Enter(m, t, Finished).(disk := Disk(m.disk.tmp, Missing), committed := m.committed + [m.threads[t].updater])
    case ReadLeniently(t) => Leave(m.(disk := m.disk.(file := Ensured(c, m.disk.file))), t)
    case Fail(t) => Leave(m, t)
    case Release(t) => Leave(m, t)
  }

  predicate IsRun(c: Codec, m: Machine, steps: seq<Step>)
    decreases |steps|
  {
    steps == [] || (Enabled(c, m, steps[0]) && IsRun(c, Next(c, m, steps[0]), steps[1..]))
  }

  function After(c: Codec, m: Machine, steps: seq<Step>): Machine
    requires IsRun(c, m, steps)
    decreases |steps|
  {
    if steps == [] then m else After(c, Next(c, m, steps[0]), steps[1..])
  }

  function Started(disk: Disk): Machine {
    Machine(disk, None, map[], [])
  }

  /** Only the lock's holder is inside a transaction. */
  predicate Exclusive(m: Machine) {
    forall t :: t in m.threads ==> m.lock == Some(t)
  }

  lemma StepKeepsExclusion(c: Codec, m: Machine, s: Step)
    requires Exclusive(m) && Enabled(c, m, s)
    ensures Exclusive(Next(c, m, s))
  {
  }

  // ---------------------------------------------------------------- a valid file

  predicate PhaseFollows(c: Codec, now: State, tmp: Content, p: Phase) {
    match p
    case Holding => true
    case Read(s) => s == now
    case Writing(s, u, n) => u(now) == Returned(s) && n <= |c.dumps(s)| && tmp == Holds(c.dumps(s)[..n])
    case Finished => true
  }

  /** The file loads as `now`, and whoever holds the lock works on `now`. */
  predicate Sound(c: Codec, m: Machine, now: State) {
    && Exclusive(m)
    && m.disk.file.Holds?
    && LoadOf(c, m.disk.file, true) == Loaded(now)
    && forall t :: t in m.threads ==> PhaseFollows(c, now, m.disk.tmp, m.threads[t])
  }

  lemma StepKeepsSound(c: Codec, m: Machine, s: Step, now: State)
    requires ReadsBack(c) && Sound(c, m, now) && Enabled(c, m, s)
    ensures var m' := Next(c, m, s);
            if s.Rename? then Sound(c, m', Committed(now, m.threads[s.thread].updater))
            else Sound(c, m', now)
  {
    StepKeepsExclusion(c, m, s);
    if s.Rename? {
      var p := m.threads[s.thread];
      assert c.dumps(p.state)[..p.written] == c.dumps(p.state);
      SavedStateLoads(c, p.state, true);
    }
  }

  lemma {:induction false} RunKeepsSound(c: Codec, m: Machine, steps: seq<Step>, initial: State)
    requires ReadsBack(c) && IsRun(c, m, steps)
    requires Sound(c, m, Fold(initial, m.committed))
    ensures var m' := After(c, m, steps); Sound(c, m', Fold(initial, m'.committed))
    decreases |steps|
  {
    if steps != [] {
      var m' := Next(c, m, steps[0]);
      StepKeepsSound(c, m, steps[0], Fold(initial, m.committed));
      if steps[0].Rename? {
        assert m'.committed[..|m'.committed| - 1] == m.committed;
      }
      RunKeepsSound(c, m', steps[1..], initial);
    }
  }

  /** Main result. However threads interleave, updaters raise, saves fail and the process crashes,
      at every point between two steps the file parses to the committed updaters applied one after
      another, in the order in which they held the lock, to the state it started with. */
  lemma FileIsTheFoldOfCommittedUpdates(c: Codec, disk: Disk, steps: seq<Step>, initial: State, strict: bool)
    requires ReadsBack(c) && disk.file.Holds? && LoadOf(c, disk.file, true) == Loaded(initial)
    requires IsRun(c, Started(disk), steps)
    ensures var m := After(c, Started(disk), steps);
            LoadOf(c, m.disk.file, strict) == Loaded(Fold(initial, m.committed))
  {
    RunKeepsSound(c, Started(disk), steps, initial);
  }

  // ---------------------------------------------------------------- a file that does not load

  predicate Refusing(c: Codec, m: Machine, file: Content) {
    && m.disk.file == file
    && m.committed == []
    && forall t :: t in m.threads ==> m.threads[t].Holding?
  }

  /** Main result. A file that exists and does not load strictly stays as it is through every run:
      no update ever overwrites it. */
  lemma {:induction false} CorruptFileIsNeverOverwritten(c: Codec, m: Machine, steps: seq<Step>, file: Content)
    requires file != Missing && !LoadOf(c, file, true).Loaded?
    requires Refusing(c, m, file) && IsRun(c, m, steps)
    ensures Refusing(c, After(c, m, steps), file)
    decreases |steps|
  {
    if steps != [] {
      CorruptFileIsNeverOverwritten(c, Next(c, m, steps[0]), steps[1..], file);
    }
  }

  /** Main result. A strict load refuses exactly the files that are not readable, not JSON, or not
      well formed; of those a lenient read fails only on undecodable bytes, is empty for a file
      that is no JSON object, and otherwise keeps each bucket that is an object. */
  lemma LoadsExactlyWellFormedFiles(c: Codec, file: Content)
    ensures LoadOf(c, file, true).Loaded? <==>
              file.Holds? && c.loads(file.text).Some? && WellFormed(c.loads(file.text).value)
    ensures LoadOf(c, file, true).Loaded? ==> LoadOf(c, file, false) == LoadOf(c, file, true)
    ensures LoadOf(c, file, false).Loaded? <==> file != Undecodable
    ensures file != Undecodable && (!file.Holds? || c.loads(file.text).None? || !c.loads(file.text).value.Object?) ==>
              LoadOf(c, file, false) == Loaded(InitialState())
    ensures file.Holds? && c.loads(file.text).Some? ==>
              forall k :: k in BUCKETS ==>
                && k in LoadOf(c, file, false).state
                && LoadOf(c, file, false).state[k] ==
                   if IsBucket(c.loads(file.text).value, k) then c.loads(file.text).value.members[k].members else map[]
  {
    if file.Holds? && c.loads(file.text).Some? && !c.loads(file.text).value.Object? {
      assert KnownBuckets(c.loads(file.text).value) == InitialState();
    }
  }

  // ---------------------------------------------------------------- the store's methods

  lemma {:induction false} RunExtends(c: Codec, m: Machine, steps: seq<Step>, s: Step)
    requires IsRun(c, m, steps) && Enabled(c, After(c, m, steps), s)
    ensures IsRun(c, m, steps + [s])
    ensures After(c, m, steps + [s]) == Next(c, After(c, m, steps), s)
    decreases |steps|
  {
    if steps == [] {
      assert [s][1..] == [];
    } else {
      RunExtends(c, Next(c, m, steps[0]), steps[1..], s);
      assert (steps + [s])[1..] == steps[1..] + [s];
    }
  }

  /** The merge loop after the first `i` names: those are filled where the document has a bucket. */
  function PartlyMerged(parsed: Json, names: seq<string>, i: nat): State
    requires i <= |names|
  {
    map k | k in names :: if k in names[..i] && IsBucket(parsed, k) then parsed.members[k].members else map[]
  }

  lemma FillOne(parsed: Json, names: seq<string>, i: nat)
    requires i < |names|
    ensures PartlyMerged(parsed, names, i + 1)
         == if IsBucket(parsed, names[i])
           then PartlyMerged(parsed, names, i)[names[i] := parsed.members[names[i]].members]
            else PartlyMerged(parsed, names, i)
  {
    assert names[..i + 1] == names[..i] + [names[i]];
  }

  /** The loop of `_merge_store` over the known names. */
  method FillBuckets(parsed: Json, names: seq<string>, strict: bool) returns (r: Option<State>)
    requires parsed.Object?
    ensures r == if strict && !WellFormedFor(parsed, names) then None else Some(BucketsOf(parsed, names))
  {
    var merged: State := map k | k in names :: map[];
    assert merged == PartlyMerged(parsed, names, 0);
    var i := 0;
    while i < |names|
      invariant 0 <= i <= |names|
      invariant merged == PartlyMerged(parsed, names, i)
      invariant strict ==> forall j :: 0 <= j < i && names[j] in parsed.members ==> parsed.members[names[j]].Object?
    {
      var key := names[i];
      FillOne(parsed, names, i);
      if key in parsed.members {
        if parsed.members[key].Object? {
          merged := merged[key := parsed.members[key].members];
        } else if strict {
          return None;
        }
      }
      i := i + 1;
    }
    assert names[..i] == names;
    assert merged == BucketsOf(parsed, names);
    return Some(merged);
  }

  /** `_merge_store`. Null means that the strict merge raises. */
  method MergeStore(parsed: Json, strict: bool) returns (r: Option<State>)
    ensures r == if strict && !WellFormed(parsed) then None else Some(KnownBuckets(parsed))
  {
    if !parsed.Object? {
      assert KnownBuckets(parsed) == InitialState();
      return if strict then None else Some(InitialState());
    }
    r := FillBuckets(parsed, BUCKETS, strict);
  }

  /** How far a save gets: to the end, or stopped after so many characters of the temporary file,
      by an error or by the end of the process. */
  datatype Fate = Completes | StopsAfter(written: nat)

  datatype Answer = Saved(state: State) | LoadFailed | UpdaterRaised | Stopped

  class Store {
    const codec: Codec
    var file: Content
    var tmp: Content

    constructor (codec: Codec, disk: Disk)
      ensures this.codec == codec && file == Ensured(codec, disk.file) && tmp == disk.tmp
    {
      this.codec := codec;
      file := Ensured(codec, disk.file);
      tmp := disk.tmp;
    }

    method Load(strict: bool) returns (r: Loaded)
      modifies this`file
      ensures file == Ensured(codec, old(file))
      ensures r == LoadOf(codec, file, strict)
    {
      file := Ensured(codec, file);
      match file
      case Holds(text) =>
        var parsed := codec.loads(text);
        if parsed.None? {
          r := if strict then LoadError else Loaded(InitialState());
        } else {
          var merged := MergeStore(parsed.value, strict);
          r := if merged.None? then LoadError else Loaded(merged.value);
        }
      case Undecodable => r := DecodeError;
      case Unreadable => r := if strict then LoadError else Loaded(InitialState());
    }

    /** `_save`: the temporary file written, then renamed into place. The caller holds the lock
        in a run of the machine that has come to the point of writing. */
    method Save(state: State, fate: Fate, ghost updater: Updater, ghost start: Machine, ghost before: seq<Step>)
      returns (done: bool, ghost run: seq<Step>)
      requires IsRun(codec, start, before)
      requires After(codec, start, before)
            == Machine(Disk(file, Holds("")), Some(0), map[0 := Writing(state, updater, 0)], [])
      modifies this
      ensures IsRun(codec, start, run)
      ensures After(codec, start, run) == Machine(Disk(file, tmp), None, map[], if done then [updater] else [])
      ensures file == if done then Holds(codec.dumps(state)) else old(file)
      ensures fate.Completes? ==> done
    {
      run := before;
      var text := codec.dumps(state);
      var reached := if fate.Completes? || fate.written > |text| then |text| else fate.written;
      tmp := Holds(text[..reached]);
      if reached > 0 {
        run := Extend(start, run, Write(0, reached));
      } else {
        assert text[..reached] == "";
      }
      if fate.StopsAfter? {
        run := Extend(start, run, Fail(0));
        return false, run;
      }
      assert text[..reached] == text;
      run := Extend(start, run, Rename(0));
      file, tmp := tmp, Missing;
      run := Extend(start, run, Release(0));
      return true, run;
    }

    /** `update`, as one run of the machine: every write it does is a step that the main results
        above allow, and it answers `Saved` exactly when its updater is committed. */
    method Update(updater: Updater, fate: Fate) returns (r: Answer, ghost run: seq<Step>)
      modifies this
      ensures IsRun(codec, Started(old(Disk(file, tmp))), run)
      ensures After(codec, Started(old(Disk(file, tmp))), run)
           == Machine(Disk(file, tmp), None, map[], if r.Saved? then [updater] else [])
      ensures var loaded := LoadOf(codec, Ensured(codec, old(file)), true);
              && (r.LoadFailed? <==> !loaded.Loaded?)
              && (r.UpdaterRaised? <==> loaded.Loaded? && updater(loaded.state).Raised?)
              && (r.Saved? ==> file == Holds(codec.dumps(r.state)) && updater(loaded.state) == Returned(r.state))
      ensures !r.Saved? ==> file == Ensured(codec, old(file))
      ensures fate.Completes? ==> !r.Stopped?
    {
      ghost var start := Started(Disk(file, tmp));
      run := Extend(start, [], Acquire(0));
      run := Extend(start, run, LoadStrictly(0));
      var loaded := Load(true);
      if !loaded.Loaded? { return LoadFailed, run; }
      run := Extend(start, run, RunUpdater(0, updater));
      var updated := updater(loaded.state);
      if updated.Raised? { return UpdaterRaised, run; }
      var done;
      done, run := Save(updated.state, fate, updater, start, run);
      r := if done then Saved(updated.state) else Stopped;
    }

    ghost method Extend(start: Machine, run: seq<Step>, s: Step) returns (longer: seq<Step>)
      requires IsRun(codec, start, run) && Enabled(codec, After(codec, start, run), s)
      ensures IsRun(codec, start, longer)
      ensures After(codec, start, longer) == Next(codec, After(codec, start, run), s)
    {
      RunExtends(codec, start, run, s);
      longer := run + [s];
    }
  }
}
