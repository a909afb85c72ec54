/**
 * Replacing several files as one: stage everything, then replace, and undo on failure.
 *
 * Other programs may change the same files while this runs. `theirs` follows what each path
 * would hold had this transaction never written it; the contracts compare the disk with that.
 */
module Transaction {
  import opened Ids

  type Path = string

  /** `ident` stands for device, inode, size and modification time; a rename moves only `ctime`. */
  datatype File = File(content: string, mode: nat, ident: nat, ctime: nat)

  type Files = map<Path, File>

  datatype Edit = NoEdit | Put(path: Path, content: string, mode: nat) | Remove(path: Path)

  /** What happens around each of our file operations: an edit by somebody else just before it, and its failure. */
  datatype World = World(edit: nat -> Edit, fails: nat -> bool)

  datatype Fs = Fs(
    files: Files,
    temps: map<nat, File>,
    nextTemp: nat,
    clock: nat,
    step: nat,
    /** The step before which a destination was last replaced. */
    moved: nat,
    theirs: Files,
    /** The paths somebody else wrote since the transaction began. */
    touched: set<Path>)

  const NEW_FILE_MODE: nat := 420

  function At(files: Files, path: Path): Option<File> {
    if path in files then Some(files[path]) else None
  }

  predicate SameBytes(a: Option<File>, b: Option<File>) {
    && (a.Some? <==> b.Some?)
    && (a.Some? ==> a.value.content == b.value.content && a.value.mode == b.value.mode)
  }

  /** Our replacement is still there: same bytes, mode and identity. */
  predicate StillOurs(current: Option<File>, written: File) {
    && current.Some? && current.value.content == written.content
    && current.value.mode == written.mode && current.value.ident == written.ident
  }

  // ------------------------------------------------------------------ one file operation

  function Pass(f: Fs, world: World): Fs {
    var g := f.(step := f.step + 1);
    match world.edit(f.step)
    case NoEdit => g
    case Put(path, content, mode) =>
      var file := File(content, mode, f.clock, f.clock);
      g.(files := f.files[path := file], theirs := f.theirs[path := file],
         touched := f.touched + {path}, clock := f.clock + 1)
    case Remove(path) =>
      g.(files := f.files - {path}, theirs := f.theirs - {path}, touched := f.touched + {path})
  }

  function AddTemp(f: Fs, content: string, mode: nat): Fs {
    f.(temps := f.temps[f.nextTemp := File(content, mode, f.clock, f.clock)],
       nextTemp := f.nextTemp + 1, clock := f.clock + 1)
  }

  /** `os.replace`: the temporary file becomes the destination. */
  function MoveTemp(f: Fs, temp: nat, path: Path): Fs
    requires temp in f.temps
  {
    f.(files := f.files[path := f.temps[temp].(ctime := f.clock)], temps := f.temps - {temp},
       clock := f.clock + 1, moved := f.step)
  }

  function Unlink(f: Fs, path: Path): Fs {
    f.(files := f.files - {path})
  }

  ghost predicate Sound(f: Fs) {
    && f.moved <= f.step
    && (forall p | p in f.files :: f.files[p].ident < f.clock)
    && (forall t | t in f.temps :: f.temps[t].ident < f.clock && t < f.nextTemp)
  }

  /** At one path, somebody else did nothing, or it now holds exactly what they put there, recognisably new. */
  ghost predicate SameOrEdited(a: Fs, b: Fs, p: Path) {
    || (At(a.files, p) == At(b.files, p) && At(a.theirs, p) == At(b.theirs, p))
    || (p in b.touched && At(b.files, p) == At(b.theirs, p) && (p in b.files ==> b.files[p].ident >= a.clock))
  }

  /** Between `a` and `b` only other programs wrote files, and no temporary file went away. */
  ghost predicate Evolves(a: Fs, b: Fs) {
    && a.clock <= b.clock && a.touched <= b.touched && a.nextTemp <= b.nextTemp && a.moved == b.moved
    && (Sound(a) ==> Sound(b))
    && (forall p :: SameOrEdited(a, b, p))
    && (forall p | p !in b.touched :: At(a.theirs, p) == At(b.theirs, p))
    && (forall p | p in b.files && b.files[p].ident < a.clock :: StillThere(a, b, p))
    && (forall t | t in a.temps :: t in b.temps && b.temps[t] == a.temps[t])
  }

  /** A file whose identity is older than `a` has been there since, and nobody wrote its path in between. */
  ghost predicate StillThere(a: Fs, b: Fs, p: Path) {
    At(a.files, p) == At(b.files, p) && (p in b.touched ==> p in a.touched)
  }

  lemma {:induction false} PassEvolves(f: Fs, world: World)
    ensures Evolves(f, Pass(f, world)) && Pass(f, world).temps == f.temps && Pass(f, world).nextTemp == f.nextTemp
  {}

  lemma {:induction false} AddTempEvolves(f: Fs, content: string, mode: nat)
    requires Sound(f)
    ensures Evolves(f, AddTemp(f, content, mode))
  {
    var g := AddTemp(f, content, mode);
    assert forall p :: SameOrEdited(f, g, p) && StillThere(f, g, p);
  }

  lemma {:induction false} EvolvesOn(a: Fs, b: Fs, c: Fs)
    requires Evolves(a, b) && Evolves(b, c)
    ensures Evolves(a, c)
  {
    forall p ensures SameOrEdited(a, c, p) {
      assert SameOrEdited(a, b, p) && SameOrEdited(b, c, p);
    }
    forall p | p in c.files && c.files[p].ident < a.clock ensures StillThere(a, c, p) {
      assert StillThere(b, c, p);
      assert StillThere(a, b, p);
    }
    assert forall t | t in a.temps :: t in b.temps && t in c.temps;
  }

  // ------------------------------------------------------------------ what the environment chose

  /** The paths somebody else writes during the steps from `start` up to `end`. */
  function EditedIn(world: World, start: nat, end: nat): set<Path> {
    set s | start <= s < end && !world.edit(s).NoEdit? :: world.edit(s).path
  }

  predicate FailsIn(world: World, start: nat, end: nat) {
    exists s :: start <= s < end && world.fails(s)
  }

  /** In those steps nobody else writes anything and every operation succeeds. */
  predicate CalmIn(world: World, start: nat, end: nat) {
    EditedIn(world, start, end) == {} && !FailsIn(world, start, end)
  }

  /** From `a` to `b` time only passed forward, and the touched paths are the ones the world chose. */
  ghost predicate Lived(world: World, a: Fs, b: Fs) {
    a.step <= b.step && b.touched == a.touched + EditedIn(world, a.step, b.step)
  }

  lemma {:induction false} EditedSplit(world: World, start: nat, middle: nat, end: nat)
    requires start <= middle <= end
    ensures EditedIn(world, start, end) == EditedIn(world, start, middle) + EditedIn(world, middle, end)
    ensures FailsIn(world, start, end) <==> FailsIn(world, start, middle) || FailsIn(world, middle, end)
    ensures CalmIn(world, start, end) <==> CalmIn(world, start, middle) && CalmIn(world, middle, end)
  {
    var all := EditedIn(world, start, end);
    forall p | p in all ensures p in EditedIn(world, start, middle) + EditedIn(world, middle, end) {
      var s :| start <= s < end && !world.edit(s).NoEdit? && world.edit(s).path == p;
      assert if s < middle then p in EditedIn(world, start, middle) else p in EditedIn(world, middle, end);
    }
    assert all == EditedIn(world, start, middle) + EditedIn(world, middle, end);
  }

  lemma {:induction false} EditedNow(world: World, s: nat)
    ensures EditedIn(world, s, s + 1) == if world.edit(s).NoEdit? then {} else {world.edit(s).path}
    ensures FailsIn(world, s, s + 1) <==> world.fails(s)
  {
    if !world.edit(s).NoEdit? {
      assert world.edit(s).path in EditedIn(world, s, s + 1);
    }
  }

  lemma {:induction false} LivedSelf(world: World, f: Fs)
    ensures Lived(world, f, f) && CalmIn(world, f.step, f.step)
  {}

  lemma {:induction false} LivedOn(world: World, a: Fs, b: Fs, c: Fs)
    requires Lived(world, a, b) && Lived(world, b, c)
    ensures Lived(world, a, c)
    ensures FailsIn(world, a.step, c.step) <==> FailsIn(world, a.step, b.step) || FailsIn(world, b.step, c.step)
    ensures CalmIn(world, a.step, c.step) <==> CalmIn(world, a.step, b.step) && CalmIn(world, b.step, c.step)
  {
    hide EditedIn, FailsIn, CalmIn;
    EditedSplit(world, a.step, b.step, c.step);
  }

  lemma {:induction false} PassLives(f: Fs, world: World)
    ensures Lived(world, f, Pass(f, world))
    ensures CalmIn(world, f.step, f.step + 1) ==> Pass(f, world) == f.(step := f.step + 1) && !world.fails(f.step)
  {
    hide EditedIn, FailsIn;
    EditedNow(world, f.step);
  }

  // ------------------------------------------------------------------ records of what was done

  datatype Entry = Entry(
    path: Path,
    text: string,
    original: Option<File>,
    stage: Option<nat>,
    written: Option<File>,
    backup: Option<nat>)

  function TempsOf(e: Entry): set<nat> {
    (if e.stage.Some? then {e.stage.value} else {}) + (if e.backup.Some? then {e.backup.value} else {})
  }

  datatype Cause = EditedByOthers | RollbackFailed

  datatype Problem = Problem(entry: Entry, cause: Cause)

  datatype Outcome = Done | RolledBack | NeedsReview(problems: seq<Problem>)

  datatype Update = Update(path: Path, text: string)

  predicate DistinctPaths(updates: seq<Update>) {
    forall i, j | 0 <= i < j < |updates| :: updates[i].path != updates[j].path
  }

  ghost predicate OnlyTheirs(f: Fs, ours: set<Path>) {
    forall p | p !in ours :: At(f.files, p) == At(f.theirs, p)
  }

  predicate BackupHeld(f: Fs, e: Entry) {
    && (e.backup.Some? <==> e.original.Some?)
    && (e.backup.Some? ==> e.backup.value in f.temps && SameBytes(Some(f.temps[e.backup.value]), e.original))
  }

  /** A replaced file keeps its permissions; a new one gets the default. */
  function ModeFor(original: Option<File>): nat {
    if original.Some? then original.value.mode else NEW_FILE_MODE
  }

  /** Ready to replace: the new text and the original bytes are both on disk beside the destination. */
  predicate Staged(f: Fs, e: Entry) {
    && e.stage.Some? && e.written.Some? && e.stage.value in f.temps && f.temps[e.stage.value] == e.written.value
    && e.written.value.content == e.text && e.written.value.mode == ModeFor(e.original)
    && BackupHeld(f, e) && e.stage != e.backup
  }

  /** Replaced: our file is there over the original, or somebody else has written the path since. */
  predicate Committed(f: Fs, e: Entry) {
    && e.written.Some? && e.written.value.ident < f.clock
    && e.written.value.content == e.text && e.written.value.mode == ModeFor(e.original)
    && BackupHeld(f, e)
    && if StillOurs(At(f.files, e.path), e.written.value) then At(f.theirs, e.path) == e.original
       else e.path in f.touched && At(f.files, e.path) == At(f.theirs, e.path)
  }

  predicate Settled(f: Fs, path: Path) {
    SameBytes(At(f.files, path), At(f.theirs, path))
  }

  /** What is left when a rollback could not be carried through: the backup, and nothing of theirs lost. */
  predicate ProblemHeld(f: Fs, problem: Problem) {
    var e := problem.entry;
    && BackupHeld(f, e)
    && match problem.cause
       case EditedByOthers => e.path in f.touched && At(f.files, e.path) == At(f.theirs, e.path)
       case RollbackFailed => Committed(f, e)
  }

  lemma {:induction false} EvolvesKeeps(a: Fs, b: Fs, e: Entry)
    requires Evolves(a, b)
    ensures Staged(a, e) ==> Staged(b, e)
    ensures Committed(a, e) ==> Committed(b, e)
    ensures Settled(a, e.path) ==> Settled(b, e.path)
  {
    assert SameOrEdited(a, b, e.path);
  }

  lemma {:induction false} EvolvesProblem(a: Fs, b: Fs, problem: Problem)
    requires Evolves(a, b) && ProblemHeld(a, problem)
    ensures ProblemHeld(b, problem)
  {
    assert SameOrEdited(a, b, problem.entry.path);
    EvolvesKeeps(a, b, problem.entry);
  }

  lemma {:induction false} EvolvesTheirs(a: Fs, b: Fs, ours: set<Path>)
    requires Evolves(a, b) && OnlyTheirs(a, ours)
    ensures OnlyTheirs(b, ours)
  {
    forall p | p !in ours ensures At(b.files, p) == At(b.theirs, p) {
      assert SameOrEdited(a, b, p);
    }
  }

  // ------------------------------------------------------------------ the records in order

  /** No two records share a destination or a temporary file. */
  ghost predicate Apart(es: seq<Entry>) {
    && (forall i, j | 0 <= i < j < |es| :: es[i].path != es[j].path)
    && (forall i, j | 0 <= i < j < |es| :: TempsOf(es[i]) !! TempsOf(es[j]))
  }

  function Paths(es: seq<Entry>, k: nat): set<Path>
    requires k <= |es|
  {
    set i | 0 <= i < k :: es[i].path
  }

  /** The first `k` records are replaced, the others are staged, and nothing else is ours. */
  ghost predicate Progress(f: Fs, es: seq<Entry>, k: nat) {
    && k <= |es| && Sound(f)
    && (forall i | 0 <= i < k :: Committed(f, es[i]))
    && (forall i | k <= i < |es| :: Staged(f, es[i]))
    && OnlyTheirs(f, Paths(es, k))
  }

  lemma {:induction false} ProgressEvolves(a: Fs, b: Fs, es: seq<Entry>, k: nat)
    requires Evolves(a, b) && Progress(a, es, k)
    ensures Progress(b, es, k)
  {
    hide Staged, Committed, Settled, OnlyTheirs, Paths;
    forall i | 0 <= i < |es| ensures if i < k then Committed(b, es[i]) else Staged(b, es[i]) {
      EvolvesKeeps(a, b, es[i]);
    }
    EvolvesTheirs(a, b, Paths(es, k));
  }

  /** Replacing one destination disturbs no other record. */
  lemma {:induction false} MoveApart(f: Fs, temp: nat, path: Path, e: Entry)
    requires temp in f.temps && temp !in TempsOf(e) && e.path != path
    ensures Committed(f, e) ==> Committed(MoveTemp(f, temp, path), e)
    ensures Staged(f, e) ==> Staged(MoveTemp(f, temp, path), e)
  {}

  lemma {:induction false} CommitOne(f: Fs, es: seq<Entry>, k: nat)
    requires Progress(f, es, k) && k < |es| && Apart(es)
    requires At(f.files, es[k].path) == es[k].original
    ensures Progress(MoveTemp(f, es[k].stage.value, es[k].path), es, k + 1)
  {
    var e := es[k];
    var g := MoveTemp(f, e.stage.value, e.path);
    assert forall i | 0 <= i < k :: es[i].path != e.path;
    assert e.path !in Paths(es, k);
    assert Committed(g, e);
    forall i | 0 <= i < |es| && i != k ensures if i < k then Committed(g, es[i]) else Staged(g, es[i]) {
      MoveApart(f, e.stage.value, e.path, es[i]);
    }
    assert e.path in Paths(es, k + 1);
    forall p | p !in Paths(es, k + 1) ensures At(g.files, p) == At(g.theirs, p) {
      assert p !in Paths(es, k);
    }
  }

  // ------------------------------------------------------------------ undoing

  /** Records at and above `i` have been undone, or are listed with what became of them. */
  ghost predicate Undone(f: Fs, es: seq<Entry>, i: nat, k: nat, problems: seq<Problem>) {
    && i <= k <= |es| && Sound(f)
    && (forall j | 0 <= j < i :: Committed(f, es[j]))
    && (forall j | i <= j < k :: Settled(f, es[j].path) || Problem(es[j], RollbackFailed) in problems)
    && (forall problem | problem in problems ::
          ProblemHeld(f, problem) && exists j | i <= j < k :: problem.entry == es[j])
    && OnlyTheirs(f, Paths(es, k))
  }

  lemma {:induction false} UndoneEvolves(a: Fs, b: Fs, es: seq<Entry>, i: nat, k: nat, problems: seq<Problem>)
    requires Evolves(a, b) && Undone(a, es, i, k, problems)
    ensures Undone(b, es, i, k, problems)
  {
    hide Staged, Committed, Settled, OnlyTheirs, Paths, ProblemHeld;
    forall j | 0 <= j < k
      ensures Committed(a, es[j]) ==> Committed(b, es[j])
      ensures Settled(a, es[j].path) ==> Settled(b, es[j].path)
    {
      EvolvesKeeps(a, b, es[j]);
    }
    forall problem | problem in problems ensures ProblemHeld(b, problem) {
      EvolvesProblem(a, b, problem);
    }
    EvolvesTheirs(a, b, Paths(es, k));
  }

  function Restore(f: Fs, e: Entry): Fs
    requires e.backup.Some? ==> e.backup.value in f.temps
  {
    if e.backup.Some? then MoveTemp(f, e.backup.value, e.path) else Unlink(f, e.path)
  }

  lemma {:induction false} RestoreApart(f: Fs, e: Entry, other: Entry)
    requires e.backup.Some? ==> e.backup.value in f.temps
    requires TempsOf(e) !! TempsOf(other) && e.path != other.path
    ensures Committed(f, other) ==> Committed(Restore(f, e), other)
    ensures Settled(f, other.path) ==> Settled(Restore(f, e), other.path)
    ensures forall cause :: ProblemHeld(f, Problem(other, cause)) ==> ProblemHeld(Restore(f, e), Problem(other, cause))
  {}

  lemma {:induction false} UndoOne(f: Fs, es: seq<Entry>, i: nat, k: nat, problems: seq<Problem>)
    requires Undone(f, es, i + 1, k, problems) && Apart(es)
    requires StillOurs(At(f.files, es[i].path), es[i].written.value)
    ensures Undone(Restore(f, es[i]), es, i, k, problems)
  {
    var e := es[i];
    var g := Restore(f, e);
    assert Committed(f, e);
    forall j | 0 <= j < k && j != i
      ensures Committed(f, es[j]) ==> Committed(g, es[j])
      ensures Settled(f, es[j].path) ==> Settled(g, es[j].path)
    {
      RestoreApart(f, e, es[j]);
    }
    assert Settled(g, e.path);
    forall problem | problem in problems ensures ProblemHeld(g, problem) {
      var j :| i < j < k && problem.entry == es[j];
      RestoreApart(f, e, es[j]);
    }
    assert e.path in Paths(es, k);
  }

  lemma {:induction false} UndoBlocked(f: Fs, es: seq<Entry>, i: nat, k: nat, problems: seq<Problem>, cause: Cause)
    requires Undone(f, es, i + 1, k, problems)
    requires cause.EditedByOthers? ==> !StillOurs(At(f.files, es[i].path), es[i].written.value)
    ensures Undone(f, es, i, k, problems + [Problem(es[i], cause)])
  {
    assert Committed(f, es[i]);
    var more := problems + [Problem(es[i], cause)];
    assert ProblemHeld(f, Problem(es[i], cause));
    forall j | i <= j < k ensures Settled(f, es[j].path) || Problem(es[j], RollbackFailed) in more {
      if j > i && !Settled(f, es[j].path) {
        assert Problem(es[j], RollbackFailed) in problems;
      }
    }
  }

  // ------------------------------------------------------------------ temporary files

  function AllTemps(es: seq<Entry>): set<nat> {
    if es == [] then {} else AllTemps(es[..|es| - 1]) + TempsOf(es[|es| - 1])
  }

  lemma {:induction false} InAllTemps(es: seq<Entry>, i: nat)
    requires i < |es|
    ensures TempsOf(es[i]) <= AllTemps(es)
  {
    if i < |es| - 1 {
      InAllTemps(es[..|es| - 1], i);
    }
  }

  /** Every temporary file was there before, or belongs to a record; none that was there is gone. */
  ghost predicate Accounted(base: Fs, f: Fs, es: seq<Entry>) {
    && (forall t | t in f.temps :: t in base.temps || t in AllTemps(es))
    && (forall t | t in base.temps :: t in f.temps && f.temps[t] == base.temps[t])
    && (forall t | t in AllTemps(es) :: t !in base.temps && t < f.nextTemp)
  }

  lemma {:induction false} AccountedGrows(base: Fs, a: Fs, b: Fs, es: seq<Entry>, e: Entry)
    requires Accounted(base, a, es) && Sound(a) && Evolves(a, b)
    requires forall t | t in b.temps :: t in a.temps || t in TempsOf(e)
    requires forall t | t in TempsOf(e) :: a.nextTemp <= t < b.nextTemp
    ensures Accounted(base, b, es + [e])
    ensures AllTemps(es) !! TempsOf(e)
  {
    assert (es + [e])[..|es|] == es;
  }

  lemma {:induction false} ApartGrows(es: seq<Entry>, e: Entry)
    requires Apart(es) && AllTemps(es) !! TempsOf(e)
    requires forall i | 0 <= i < |es| :: es[i].path != e.path
    ensures Apart(es + [e])
  {
    forall i | 0 <= i < |es| ensures TempsOf(es[i]) !! TempsOf(e) {
      InAllTemps(es, i);
    }
  }

  lemma {:induction false} AccountedDrop(base: Fs, f: Fs, g: Fs, es: seq<Entry>, i: nat, temp: nat)
    requires Accounted(base, f, es) && i < |es| && temp in TempsOf(es[i])
    requires g.temps == f.temps - {temp} && g.nextTemp == f.nextTemp
    ensures Accounted(base, g, es)
  {
    InAllTemps(es, i);
  }

  /** The backups a failed rollback keeps. */
  function Retained(problems: seq<Problem>): set<nat> {
    if problems == [] then {} else
    var last := problems[|problems| - 1].entry.backup;
    Retained(problems[..|problems| - 1]) + if last.Some? then {last.value} else {}
  }

  lemma {:induction false} InRetained(problems: seq<Problem>, problem: Problem)
    requires problem in problems && problem.entry.backup.Some?
    ensures problem.entry.backup.value in Retained(problems)
  {
    var n := |problems| - 1;
    if problem != problems[n] {
      assert problems == problems[..n] + [problems[n]];
      InRetained(problems[..n], problem);
    }
  }

  // ------------------------------------------------------------------ the transaction as the program writes it

  /** What one call promises, comparing the disk after it with the disk before. */
  ghost predicate Promise(before: Fs, after: Fs, updates: seq<Update>, expected: map<Path, Option<File>>,
                          outcome: Outcome) {
    // Nobody else's file was written, here or anywhere.
    && (forall p | (forall k | 0 <= k < |updates| :: updates[k].path != p) :: At(after.files, p) == At(after.theirs, p))
    // What nobody else touched is, in `theirs`, what it was.
    && (forall p | p !in after.touched :: At(after.theirs, p) == At(before.files, p))
    && match outcome
       case Done =>
         // Every destination holds its new text, unless somebody wrote it after we did; no temporary file remains.
         && (forall k | 0 <= k < |updates| :: Replaced(after, updates[k], expected))
         && after.temps == before.temps
       case RolledBack =>
         // Every path holds the bytes it would have held without us; no temporary file remains.
         && (forall p :: Settled(after, p))
         && after.temps == before.temps
       case NeedsReview(problems) =>
         // Every destination does too, except where the rollback itself failed; and whatever was
         // left unfinished keeps a backup of the bytes it replaced.
         && problems != []
         && (forall k | 0 <= k < |updates| ::
               Settled(after, updates[k].path) || RollbackFailedAt(problems, updates[k].path))
         && (forall problem | problem in problems :: ProblemHeld(after, problem))
         && (forall t | t in before.temps :: t in after.temps && after.temps[t] == before.temps[t])
         && (forall t | t in after.temps :: t in before.temps || t in Retained(problems))
  }

  /**
   * The destination holds the new text, with the permissions of what it replaced, and what it replaced
   * is what was read; or somebody wrote it after we did.
   */
  predicate Replaced(f: Fs, u: Update, expected: map<Path, Option<File>>) {
    || (&& u.path in f.files && f.files[u.path].content == u.text
        && f.files[u.path].mode == ModeFor(At(f.theirs, u.path))
        && AsRead(f.theirs, expected, u.path))
    || (u.path in f.touched && At(f.files, u.path) == At(f.theirs, u.path))
  }

  /** An undo that could not be written met a failure in those steps. */
  predicate FailuresExplained(world: World, start: nat, end: nat, problems: seq<Problem>) {
    forall problem | problem in problems && problem.cause.RollbackFailed? :: FailsIn(world, start, end)
  }

  /**
   * What the environment chose explains the outcome: the touched paths are the ones it edited while
   * the call ran, and an undo fails only when one of the steps of the rollback does.
   */
  ghost predicate Explained(world: World, before: Fs, after: Fs, undoFrom: nat, outcome: Outcome) {
    && Lived(world, before, after) && before.step <= undoFrom <= after.step
    && (outcome.NeedsReview? ==> FailuresExplained(world, undoFrom, after.step, outcome.problems))
  }

  predicate RollbackFailedAt(problems: seq<Problem>, path: Path) {
    exists i | 0 <= i < |problems| :: problems[i].cause.RollbackFailed? && problems[i].entry.path == path
  }

  /** The file is what was read when the update was prepared, if it was read at all. */
  predicate AsRead(files: Files, expected: map<Path, Option<File>>, path: Path) {
    path in expected ==> At(files, path) == expected[path]
  }

  /** The records hold what the destinations held when they were made. */
  predicate OriginalsAt(files: Files, es: seq<Entry>) {
    forall i | 0 <= i < |es| :: es[i].original == At(files, es[i].path)
  }

  /** At some moment after `a`, before anything of ours was written, the path held what was read. */
  ghost predicate SeenAs(a: Fs, path: Path, snapshot: Option<File>) {
    exists f: Fs :: Evolves(a, f) && At(f.files, path) == snapshot
  }

  /** The path holds what was read, unless somebody wrote it since the transaction began. */
  predicate AsReadUnless(f: Fs, path: Path, snapshot: Option<File>) {
    path in f.touched || At(f.files, path) == snapshot
  }

  /** An input differs from what was read before the call, and nobody writes it while the call runs. */
  predicate Stale(world: World, before: Fs, after: Fs, expected: map<Path, Option<File>>) {
    exists p | p in expected :: !AsRead(before.files, expected, p) && p !in EditedIn(world, before.step, after.step)
  }

  /** Outside our own destinations, a file older than the call has not been written since it began. */
  ghost predicate OldAreUntouched(base: Fs, f: Fs, ours: set<Path>) {
    base.clock <= f.clock && forall p | p in f.files && p !in ours && f.files[p].ident < base.clock :: p !in f.touched
  }

  /** An input that is not replaced, and was there, older than the call, when it was read. */
  predicate OldInput(before: Fs, updates: seq<Update>, expected: map<Path, Option<File>>, p: Path) {
    && p in expected && expected[p].Some? && expected[p].value.ident < before.clock
    && forall k | 0 <= k < |updates| :: updates[k].path != p
  }

  /** Up to that step nobody else wrote an input that the new texts were made from. */
  predicate InputsHeld(world: World, before: Fs, updates: seq<Update>, expected: map<Path, Option<File>>, step: nat) {
    forall p | OldInput(before, updates, expected, p) :: p !in EditedIn(world, before.step, step)
  }

  class Disk {
    const world: World
    var fs: Fs

    constructor (files: Files, world: World)
      requires forall p | p in files :: files[p].ident == 0
      ensures this.world == world && fs.files == files == fs.theirs && fs.touched == {} && fs.temps == map[] && Sound(fs)
    {
      this.world := world;
      fs := Fs(files, map[], 0, 1, 0, 0, files, {});
    }

    /** Time passes; the next operation may fail. */
    method Wait() returns (fails: bool)
      modifies this
      ensures Evolves(old(fs), fs) && fs.temps == old(fs).temps && fs.nextTemp == old(fs).nextTemp
      ensures Sound(old(fs)) ==> Sound(fs)
      ensures Lived(world, old(fs), fs) && (fails ==> FailsIn(world, old(fs).step, fs.step))
      ensures CalmIn(world, old(fs).step, fs.step) ==> fs.files == old(fs).files && !fails
    {
      hide EditedIn;
      PassEvolves(fs, world);
      PassLives(fs, world);
      fails := world.fails(fs.step);
      fs := Pass(fs, world);
    }

    /** Is the file still the one that was read? An unreadable file counts as changed. */
    method Unchanged(path: Path, snapshot: Option<File>) returns (same: bool)
      modifies this
      ensures Evolves(old(fs), fs) && fs.temps == old(fs).temps && fs.nextTemp == old(fs).nextTemp
      ensures same ==> At(fs.files, path) == snapshot
      ensures Lived(world, old(fs), fs)
      ensures CalmIn(world, old(fs).step, fs.step) ==>
        fs.files == old(fs).files && (same <==> At(fs.files, path) == snapshot)
    {
      hide EditedIn, FailsIn, Lived, CalmIn;
      var fails := Wait();
      same := !fails && At(fs.files, path) == snapshot;
    }

    /** What the destination holds now; it must still be what was read when the update was prepared. */
    method ReadOriginal(path: Path, expected: map<Path, Option<File>>) returns (original: Option<File>, ok: bool)
      requires Sound(fs)
      modifies this
      ensures Evolves(old(fs), fs) && Sound(fs) && fs.temps == old(fs).temps && fs.nextTemp == old(fs).nextTemp
      ensures path in expected ==> original == expected[path]
      ensures ok ==> SeenAs(old(fs), path, original)
      ensures Lived(world, old(fs), fs)
      ensures CalmIn(world, old(fs).step, fs.step) ==>
        && fs.files == old(fs).files
        && (AsRead(fs.files, expected, path) ==> ok && original == At(fs.files, path))
    {
      hide EditedIn, FailsIn, Lived, CalmIn, Evolves, Sound, SeenAs;
      EvolvesSelf(fs);
      LivedSelf(world, fs);
      if path in expected {
        original := expected[path];
      } else {
        var fails := Wait();
        original := At(fs.files, path);
        if fails {
          return original, false;
        }
      }
      ghost var f := fs;
      ok := Unchanged(path, original);
      EvolvesOn(old(fs), f, fs);
      EvolvesSound(f, fs);
      LivedOn(world, old(fs), f, fs);
      SeenNow(old(fs), fs, path);
    }

    /** Write the new text, and a copy of the old bytes, beside the destination. */
    method StageOne(u: Update, expected: map<Path, Option<File>>) returns (e: Entry, ok: bool)
      requires Sound(fs)
      modifies this
      ensures Evolves(old(fs), fs) && Sound(fs)
      ensures forall t | t in fs.temps :: t in old(fs).temps || t in TempsOf(e)
      ensures forall t | t in TempsOf(e) :: old(fs).nextTemp <= t < fs.nextTemp
      ensures e.path == u.path && e.text == u.text
      ensures ok ==> Staged(fs, e) && (u.path in expected ==> e.original == expected[u.path])
      ensures ok ==> SeenAs(old(fs), e.path, e.original)
      ensures Lived(world, old(fs), fs)
      ensures CalmIn(world, old(fs).step, fs.step) ==>
        && fs.files == old(fs).files
        && (AsRead(fs.files, expected, u.path) ==> ok && e.original == At(fs.files, u.path))
    {
      hide EditedIn, FailsIn, Lived, CalmIn, AsRead, Sound, SameOrEdited, SeenAs;
      e, ok := Entry(u.path, u.text, None, None, None, None), false;
      var original, same := ReadOriginal(u.path, expected);
      e := e.(original := original);
      if !same {
        return;
      }
      ghost var f := fs;
      var t, done := WriteTemp(u.text, ModeFor(original));
      EvolvesOn(old(fs), f, fs);
      LivedOn(world, old(fs), f, fs);
      if !done {
        return;
      }
      e := e.(stage := Some(t));
      f := fs;
      var fails := Wait();
      EvolvesOn(old(fs), f, fs);
      LivedOn(world, old(fs), f, fs);
      if fails {
        return;
      }
      e := e.(written := Some(fs.temps[t]));
      if original.Some? {
        f := fs;
        var b, copied := WriteTemp(original.value.content, original.value.mode);
        EvolvesOn(old(fs), f, fs);
        LivedOn(world, old(fs), f, fs);
        EvolvesTemp(f, fs, t);
        if !copied {
          return;
        }
        e := e.(backup := Some(b));
      }
      ok := true;
    }

    /** A new temporary file, or none at all. */
    method WriteTemp(content: string, mode: nat) returns (t: nat, ok: bool)
      requires Sound(fs)
      modifies this
      ensures Evolves(old(fs), fs) && Sound(fs)
      ensures !ok ==> fs.temps == old(fs).temps
      ensures ok ==> fs.temps.Keys == old(fs).temps.Keys + {t} && old(fs).nextTemp <= t < fs.nextTemp
                     && fs.temps[t].content == content && fs.temps[t].mode == mode
      ensures Lived(world, old(fs), fs)
      ensures CalmIn(world, old(fs).step, fs.step) ==> fs.files == old(fs).files && ok
    {
      hide EditedIn, FailsIn, CalmIn;
      var fails := Wait();
      t, ok := fs.nextTemp, !fails;
      if ok {
        ghost var f := fs;
        AddTempEvolves(fs, content, mode);
        fs := AddTemp(fs, content, mode);
        EvolvesOn(old(fs), f, fs);
      }
    }

    /** Inputs that were read to prepare the update must not have changed, wherever they are written. */
    method InputsUnchanged(expected: map<Path, Option<File>>, skip: set<Path>) returns (same: bool)
      modifies this
      ensures Evolves(old(fs), fs) && fs.temps == old(fs).temps && fs.nextTemp == old(fs).nextTemp
      ensures Lived(world, old(fs), fs)
      ensures CalmIn(world, old(fs).step, fs.step) ==>
        && fs.files == old(fs).files
        && (same <==> forall p | p in expected.Keys - skip :: At(fs.files, p) == expected[p])
      ensures same ==> forall p | p in expected.Keys - skip :: SeenAs(old(fs), p, expected[p])
      ensures same ==> forall p | p in expected.Keys - skip :: AsReadUnless(fs, p, expected[p])
    {
      hide EditedIn, FailsIn, Lived, CalmIn, Evolves, SeenAs, AsReadUnless;
      EvolvesSelf(fs);
      LivedSelf(world, fs);
      same := true;
      var left := expected.Keys - skip;
      while left != {} && same
        invariant Evolves(old(fs), fs) && fs.temps == old(fs).temps && fs.nextTemp == old(fs).nextTemp
        invariant left <= expected.Keys - skip && Lived(world, old(fs), fs)
        invariant same ==> forall p | p in expected.Keys - skip - left :: SeenAs(old(fs), p, expected[p])
        invariant same ==> forall p | p in expected.Keys - skip - left :: AsReadUnless(fs, p, expected[p])
        invariant CalmIn(world, old(fs).step, fs.step) ==>
          && fs.files == old(fs).files
          && (same <==> forall p | p in expected.Keys - skip - left :: At(fs.files, p) == expected[p])
        decreases left
      {
        ghost var f := fs;
        var path :| path in left;
        left := left - {path};
        same := Unchanged(path, expected[path]);
        EvolvesOn(old(fs), f, fs);
        LivedOn(world, old(fs), f, fs);
        AsReadSince(f, fs);
        if same {
          SeenNow(old(fs), fs, path);
        }
      }
    }

    method StageAll(updates: seq<Update>, expected: map<Path, Option<File>>) returns (es: seq<Entry>, ok: bool)
      requires Sound(fs) && DistinctPaths(updates)
      modifies this
      ensures Evolves(old(fs), fs) && Sound(fs)
      ensures Accounted(old(fs), fs, es) && Apart(es)
      ensures ok ==> Matches(es, updates, expected) && forall i | 0 <= i < |es| :: Staged(fs, es[i])
      ensures ok ==> forall i | 0 <= i < |es| :: SeenAs(old(fs), es[i].path, es[i].original)
      ensures Lived(world, old(fs), fs)
      ensures CalmIn(world, old(fs).step, fs.step) ==>
        && fs.files == old(fs).files
        && ((forall u | u in updates :: AsRead(fs.files, expected, u.path)) ==> ok && OriginalsAt(fs.files, es))
    {
      hide Evolves, Staged, Sound, Accounted, Lived, CalmIn, AsRead, OriginalsAt, Matches, Apart, DistinctPaths, SeenAs;
      es, ok := [], true;
      StageStart(fs);
      NoEntries(fs.files, updates, expected);
      LivedSelf(world, fs);
      for i := 0 to |updates|
        invariant |es| == i && ok
        invariant Evolves(old(fs), fs) && Sound(fs) && Accounted(old(fs), fs, es)
        invariant Matches(es, updates[..i], expected) && Apart(es)
        invariant forall j | 0 <= j < i :: Staged(fs, es[j])
        invariant forall j | 0 <= j < i :: SeenAs(old(fs), es[j].path, es[j].original)
        invariant Lived(world, old(fs), fs)
        invariant CalmIn(world, old(fs).step, fs.step) ==>
          && fs.files == old(fs).files
          && ((forall u | u in updates :: AsRead(fs.files, expected, u.path)) ==> OriginalsAt(fs.files, es))
      {
        ghost var f := fs;
        var e, staged := StageOne(updates[i], expected);
        LivedOn(world, old(fs), f, fs);
        EvolvesOn(old(fs), f, fs);
        AccountedGrows(old(fs), f, fs, es, e);
        forall j | 0 <= j < i ensures Staged(fs, es[j]) {
          EvolvesKeeps(f, fs, es[j]);
        }
        MatchesGrow(es, updates, e, expected);
        ApartGrows(es, e);
        OriginalsGrow(fs.files, es, e);
        es := es + [e];
        if !staged {
          ok := false;
          return;
        }
        SeenSince(old(fs), f, e.path, e.original);
      }
      assert updates[..|updates|] == updates;
    }

    /** Replace the destinations one after the other, each only while it is still what was read. */
    method CommitAll(es: seq<Entry>, ghost base: Fs) returns (k: nat, ok: bool)
      requires Progress(fs, es, 0) && Apart(es) && Accounted(base, fs, es)
      requires OldAreUntouched(base, fs, Paths(es, |es|))
      modifies this
      ensures Progress(fs, es, k) && Accounted(base, fs, es)
      ensures forall p | p !in fs.touched :: At(fs.theirs, p) == At(old(fs).theirs, p)
      ensures old(fs).touched <= fs.touched
      ensures ok ==> k == |es|
      ensures OldAreUntouched(base, fs, Paths(es, |es|))
      ensures Lived(world, old(fs), fs)
      ensures CalmIn(world, old(fs).step, fs.step) && OriginalsAt(old(fs).files, es) ==> ok
    {
      hide Evolves, Progress, Accounted, Apart, Lived, CalmIn, FailsIn, OldAreUntouched;
      k, ok := 0, true;
      LivedSelf(world, fs);
      ApartPaths(es);
      while k < |es|
        invariant k <= |es| && ok
        invariant Progress(fs, es, k) && Accounted(base, fs, es)
        invariant OldAreUntouched(base, fs, Paths(es, |es|))
        invariant forall p | p !in fs.touched :: At(fs.theirs, p) == At(old(fs).theirs, p)
        invariant old(fs).touched <= fs.touched
        invariant Lived(world, old(fs), fs)
        invariant CalmIn(world, old(fs).step, fs.step) && OriginalsAt(old(fs).files, es) ==>
          forall i | k <= i < |es| :: es[i].original == At(fs.files, es[i].path)
      {
        ghost var f := fs;
        var fails := Wait();
        LivedOn(world, old(fs), f, fs);
        EvolvesUntouched(f, fs);
        ProgressEvolves(f, fs, es, k);
        OldEvolves(base, f, fs, Paths(es, |es|));
        AccountedSame(base, f, fs, es);
        if fails || At(fs.files, es[k].path) != es[k].original {
          ok := false;
          return;
        }
        f := fs;
        CommitOne(fs, es, k);
        StagedAt(fs, es, k);
        fs := MoveTemp(fs, es[k].stage.value, es[k].path);
        LivedSame(world, old(fs), f, fs);
        OldMoves(base, f, es[k].stage.value, es[k].path, Paths(es, |es|));
        AccountedDrop(base, f, fs, es, k, es[k].stage.value);
        k := k + 1;
      }
    }

    /** Undo in reverse order, touching only what is still ours. */
    method RollBack(es: seq<Entry>, k: nat, ghost base: Fs) returns (problems: seq<Problem>)
      requires Undone(fs, es, k, k, []) && Apart(es) && Accounted(base, fs, es)
      modifies this
      ensures Undone(fs, es, 0, k, problems) && Accounted(base, fs, es)
      ensures forall p | p !in fs.touched :: At(fs.theirs, p) == At(old(fs).theirs, p)
      ensures old(fs).touched <= fs.touched
      ensures Lived(world, old(fs), fs)
      ensures FailuresExplained(world, old(fs).step, fs.step, problems)
      ensures k == 0 ==> fs == old(fs) && problems == []
    {
      problems := [];
      UndoBounds(fs, es, k);
      LivedSelf(world, fs);
      hide Evolves, Accounted, Apart, Undone, Lived, FailsIn, CalmIn;
      var i := k;
      while i > 0
        invariant 0 <= i <= k <= |es|
        invariant Undone(fs, es, i, k, problems) && Accounted(base, fs, es)
        invariant forall p | p !in fs.touched :: At(fs.theirs, p) == At(old(fs).theirs, p)
        invariant old(fs).touched <= fs.touched
        invariant Lived(world, old(fs), fs)
        invariant FailuresExplained(world, old(fs).step, fs.step, problems)
        invariant k == 0 ==> fs == old(fs) && problems == []
      {
        i := i - 1;
        ghost var f := fs;
        var fails := Wait();
        LivedOn(world, old(fs), f, fs);
        EvolvesUntouched(f, fs);
        UndoneEvolves(f, fs, es, i + 1, k, problems);
        AccountedSame(base, f, fs, es);
        CommittedAt(fs, es, i, k, problems);
        if !StillOurs(At(fs.files, es[i].path), es[i].written.value) {
          UndoBlocked(fs, es, i, k, problems, EditedByOthers);
          problems := problems + [Problem(es[i], EditedByOthers)];
        } else if fails {
          UndoBlocked(fs, es, i, k, problems, RollbackFailed);
          problems := problems + [Problem(es[i], RollbackFailed)];
        } else {
          f := fs;
          UndoOne(fs, es, i, k, problems);
          if es[i].backup.Some? {
            fs := MoveTemp(fs, es[i].backup.value, es[i].path);
            AccountedDrop(base, f, fs, es, i, es[i].backup.value);
          } else {
            fs := Unlink(fs, es[i].path);
            AccountedUnlink(base, f, fs, es);
          }
          LivedSame(world, old(fs), f, fs);
        }
      }
    }

    /** Remove every temporary file of the records but the retained backups. */
    method CleanUp(es: seq<Entry>, retained: set<nat>)
      modifies this
      ensures fs == old(fs).(temps := old(fs).temps - (AllTemps(es) - retained))
    {
      for i := 0 to |es|
        invariant fs == old(fs).(temps := old(fs).temps - (AllTemps(es[..i]) - retained))
      {
        assert es[..i + 1][..i] == es[..i];
        var e := es[i];
        if e.stage.Some? && e.stage.value !in retained {
          fs := fs.(temps := fs.temps - {e.stage.value});
        }
        if e.backup.Some? && e.backup.value !in retained {
          fs := fs.(temps := fs.temps - {e.backup.value});
        }
        assert fs.temps == old(fs).temps - (AllTemps(es[..i + 1]) - retained);
      }
      assert es[..|es|] == es;
    }

    /** With everything staged: replace the destinations, then check the other inputs once more. */
    method ReplaceAll(es: seq<Entry>, updates: seq<Update>, expected: map<Path, Option<File>>, ghost base: Fs)
      returns (k: nat, ok: bool)
      requires Progress(fs, es, 0) && Apart(es) && Accounted(base, fs, es)
      requires Matches(es, updates, expected) && UntouchedSince(base, fs)
      requires Evolves(base, fs) && Lived(world, base, fs) && base.touched == {}
      modifies this
      ensures Progress(fs, es, k) && Accounted(base, fs, es) && UntouchedSince(base, fs)
      ensures Lived(world, base, fs) && Lived(world, old(fs), fs)
      ensures ok ==> k == |es| && InputsHeld(world, base, updates, expected, fs.moved)
      ensures CalmIn(world, base.step, fs.step) ==>
        OriginalsAt(old(fs).files, es) && (forall p | p in expected :: AsRead(base.files, expected, p)) ==> ok
    {
      hide Progress, Accounted, Apart, Evolves, Sound, UntouchedSince, Matches, Paths;
      hide Lived, CalmIn, FailsIn, OriginalsAt, OldAreUntouched, SeenAs, InputsHeld, EditedIn;
      ghost var staged := fs;
      OldAtStart(base, Paths(es, |es|));
      OldEvolves(base, base, fs, Paths(es, |es|));
      k, ok := CommitAll(es, base);
      LivedOn(world, base, staged, fs);
      UntouchedOn(base, staged, fs);
      if ok {
        ghost var replaced := fs;
        PathsWithin(es, |es|, updates, expected);
        OthersAsRead(world, base, fs, es, updates, expected);
        ok := InputsUnchanged(expected, set u | u in updates :: u.path);
        LivedOn(world, base, replaced, fs);
        LivedOn(world, staged, replaced, fs);
        if ok {
          ProgressSound(replaced, es, k);
          CheckedInputsHeld(world, base, replaced, updates, expected, Paths(es, |es|));
          EvolvesMoved(replaced, fs);
        }
        ProgressEvolves(replaced, fs, es, k);
        AccountedSame(base, replaced, fs, es);
        EvolvesUntouched(replaced, fs);
        UntouchedOn(base, replaced, fs);
      }
    }

    /**
     * Stage every output, then replace; undo on failure, from step `undoFrom` on. Whatever fails and
     * whoever else writes, the outcome keeps `Promise` and is explained by what the world chose; when
     * the world is calm and the files are what was read, everything is replaced. It is done only if
     * the inputs held until the last destination was replaced; and when an input is stale from the
     * start, no destination is ever replaced.
     */
    method WriteFiles(updates: seq<Update>, expected: map<Path, Option<File>>)
      returns (outcome: Outcome, ghost undoFrom: nat)
      requires Sound(fs) && DistinctPaths(updates)
      requires fs.theirs == fs.files && fs.touched == {}
      modifies this
      ensures Promise(old(fs), fs, updates, expected, outcome)
      ensures Explained(world, old(fs), fs, undoFrom, outcome)
      ensures outcome.Done? ==> InputsHeld(world, old(fs), updates, expected, fs.moved)
      ensures Stale(world, old(fs), fs, expected) ==> outcome.RolledBack? && fs.moved == old(fs).moved
      ensures CalmIn(world, old(fs).step, fs.step) && (forall p | p in expected :: AsRead(old(fs).files, expected, p)) ==>
        outcome.Done?
    {
      hide Promise, Progress, Undone, Accounted, Apart, Evolves, Sound, UntouchedSince, Matches, Staged, Paths;
      hide Lived, CalmIn, FailsIn, OriginalsAt, OldAreUntouched, SeenAs, InputsHeld, AsReadUnless, Stale;
      ghost var base := fs;
      var es: seq<Entry>, k, ok := [], 0, false;
      ok := InputsUnchanged(expected, {});
      ghost var read := fs;
      EvolvesMoved(base, read);
      NothingStaged(base, fs);
      ghost var asRead := ok;
      if ok {
        es, ok := StageAll(updates, expected);
        LivedForward(world, read, fs);
        LivedOn(world, base, read, fs);
        EvolvesOn(base, read, fs);
        NothingReplaced(base, read, fs, es);
        if ok {
          AllStagedIsProgress(fs, es);
          ghost var staged := fs;
          k, ok := ReplaceAll(es, updates, expected, base);
          LivedForward(world, staged, fs);
          LivedOn(world, base, staged, fs);
          UndoStart(fs, es, k);
        }
      }
      ghost var f := fs;
      undoFrom := fs.step;
      LivedForward(world, base, fs);
      if ok {
        CleanUp(es, {});
        LivedSame(world, base, f, fs);
        FinishDone(base, f, fs, es, updates, expected);
        outcome := Done;
      } else {
        PathsWithin(es, k, updates, expected);
        var problems := RollBack(es, k, base);
        UntouchedOn(base, f, fs);
        LivedForward(world, f, fs);
        LivedOn(world, base, f, fs);
        f := fs;
        CleanUp(es, Retained(problems));
        LivedSame(world, base, f, fs);
        FinishUndone(base, f, fs, es, k, updates, expected, problems);
        outcome := if problems == [] then RolledBack else NeedsReview(problems);
      }
      if asRead {
        FreshIsNotStale(world, base, read, fs, expected);
      }
    }
  }

  // ------------------------------------------------------------------ small steps of the methods

  /** The records list the updates in order. */
  predicate Matches(es: seq<Entry>, updates: seq<Update>, expected: map<Path, Option<File>>) {
    |es| == |updates| && forall i | 0 <= i < |es| ::
      && es[i].path == updates[i].path && es[i].text == updates[i].text
      && (es[i].path in expected ==> es[i].original == expected[es[i].path])
  }

  lemma {:induction false} EvolvesSelf(f: Fs)
    ensures Evolves(f, f)
  {
    assert forall p :: SameOrEdited(f, f, p) && StillThere(f, f, p);
  }

  lemma {:induction false} EvolvesSound(a: Fs, b: Fs)
    requires Evolves(a, b) && Sound(a)
    ensures Sound(b)
  {}

  lemma {:induction false} EvolvesMoved(a: Fs, b: Fs)
    requires Evolves(a, b)
    ensures a.moved == b.moved
  {}

  lemma {:induction false} ProgressSound(f: Fs, es: seq<Entry>, k: nat)
    requires Progress(f, es, k)
    ensures Sound(f)
  {}

  lemma {:induction false} NoEntries(files: Files, updates: seq<Update>, expected: map<Path, Option<File>>)
    ensures OriginalsAt(files, []) && Apart([]) && Matches([], updates[..0], expected)
  {}

  lemma {:induction false} MatchesGrow(es: seq<Entry>, updates: seq<Update>, e: Entry, expected: map<Path, Option<File>>)
    requires |es| < |updates| && DistinctPaths(updates) && Matches(es, updates[..|es|], expected)
    requires e.path == updates[|es|].path && e.text == updates[|es|].text
    ensures forall j | 0 <= j < |es| :: es[j].path != e.path
    ensures (e.path in expected ==> e.original == expected[e.path]) ==>
              Matches(es + [e], updates[..|es| + 1], expected)
  {
    forall j | 0 <= j < |es| ensures es[j].path != e.path {
      assert updates[j].path != updates[|es|].path;
    }
  }

  lemma {:induction false} OriginalsGrow(files: Files, es: seq<Entry>, e: Entry)
    ensures OriginalsAt(files, es + [e]) <==> OriginalsAt(files, es) && e.original == At(files, e.path)
  {
    var all := es + [e];
    assert all[|es|] == e && forall i | 0 <= i < |es| :: all[i] == es[i];
  }

  lemma {:induction false} SeenNow(a: Fs, f: Fs, path: Path)
    requires Evolves(a, f)
    ensures SeenAs(a, path, At(f.files, path))
  {}

  lemma {:induction false} AsReadSince(a: Fs, b: Fs)
    requires Evolves(a, b)
    ensures forall p, snapshot | AsReadUnless(a, p, snapshot) :: AsReadUnless(b, p, snapshot)
    ensures forall p, snapshot | At(b.files, p) == snapshot :: AsReadUnless(b, p, snapshot)
  {
    forall p, snapshot | AsReadUnless(a, p, snapshot) ensures AsReadUnless(b, p, snapshot) {
      assert SameOrEdited(a, b, p);
    }
  }

  /** An input found to be what was read was so from the start, or somebody wrote it meanwhile. */
  lemma {:induction false} FreshIsNotStale(world: World, base: Fs, read: Fs, f: Fs, expected: map<Path, Option<File>>)
    requires Evolves(base, read) && base.touched == {} && Lived(world, base, read) && read.step <= f.step
    requires forall p | p in expected.Keys :: AsReadUnless(read, p, expected[p])
    ensures !Stale(world, base, f, expected)
  {
    forall p | p in expected && !AsRead(base.files, expected, p) ensures p in EditedIn(world, base.step, f.step) {
      assert SameOrEdited(base, read, p) && AsReadUnless(read, p, expected[p]);
    }
  }

  lemma {:induction false} SeenSince(a: Fs, b: Fs, path: Path, snapshot: Option<File>)
    requires Evolves(a, b) && SeenAs(b, path, snapshot)
    ensures SeenAs(a, path, snapshot)
  {
    hide Evolves;
    var f: Fs :| Evolves(b, f) && At(f.files, path) == snapshot;
    EvolvesOn(a, b, f);
  }

  lemma {:induction false} OldAtStart(base: Fs, ours: set<Path>)
    requires base.touched == {}
    ensures OldAreUntouched(base, base, ours)
  {}

  lemma {:induction false} OldEvolves(base: Fs, a: Fs, b: Fs, ours: set<Path>)
    requires OldAreUntouched(base, a, ours) && Evolves(a, b)
    ensures OldAreUntouched(base, b, ours)
  {
    forall p | p in b.files && p !in ours && b.files[p].ident < base.clock ensures p !in b.touched {
      assert StillThere(a, b, p);
    }
  }

  lemma {:induction false} OldMoves(base: Fs, f: Fs, temp: nat, path: Path, ours: set<Path>)
    requires OldAreUntouched(base, f, ours) && temp in f.temps && path in ours
    ensures OldAreUntouched(base, MoveTemp(f, temp, path), ours)
  {}

  /** The last check of the inputs: one that is still what was read was written by nobody up to then. */
  lemma {:induction false} CheckedInputsHeld(world: World, base: Fs, f: Fs, updates: seq<Update>,
                                             expected: map<Path, Option<File>>, ours: set<Path>)
    requires base.touched == {} && Lived(world, base, f) && OldAreUntouched(base, f, ours)
    requires forall p | p in ours :: exists k | 0 <= k < |updates| :: updates[k].path == p
    requires forall p | p in expected.Keys - (set u | u in updates :: u.path) :: SeenAs(f, p, expected[p])
    requires Sound(f)
    ensures InputsHeld(world, base, updates, expected, f.moved)
  {
    forall p | OldInput(base, updates, expected, p) ensures p !in EditedIn(world, base.step, f.moved) {
      assert EditedIn(world, base.step, f.moved) <= EditedIn(world, base.step, f.step);
      assert p in expected.Keys - (set u | u in updates :: u.path);
      assert SeenAs(f, p, expected[p]);
      var seen: Fs :| Evolves(f, seen) && At(seen.files, p) == expected[p];
      OldEvolves(base, f, seen, ours);
      assert p !in seen.touched;
    }
  }

  lemma {:induction false} LivedSame(world: World, a: Fs, b: Fs, c: Fs)
    requires Lived(world, a, b) && c.step == b.step && c.touched == b.touched
    ensures Lived(world, a, c)
  {}

  lemma {:induction false} LivedForward(world: World, a: Fs, b: Fs)
    requires Lived(world, a, b)
    ensures a.step <= b.step
  {}

  lemma {:induction false} ApartPaths(es: seq<Entry>)
    requires Apart(es)
    ensures forall i, j | 0 <= i < j < |es| :: es[i].path != es[j].path
  {}

  /** With every destination replaced and nobody else writing, the other inputs are still what was read. */
  lemma {:induction false} OthersAsRead(world: World, base: Fs, f: Fs, es: seq<Entry>, updates: seq<Update>,
                                        expected: map<Path, Option<File>>)
    requires Progress(f, es, |es|) && Matches(es, updates, expected) && UntouchedSince(base, f)
    requires Lived(world, base, f) && base.touched == {}
    ensures CalmIn(world, base.step, f.step) && (forall p | p in expected :: AsRead(base.files, expected, p)) ==>
              forall p | p in expected.Keys - (set u | u in updates :: u.path) :: At(f.files, p) == expected[p]
  {
    forall p | p !in (set u | u in updates :: u.path) ensures p !in Paths(es, |es|) {
      assert forall i | 0 <= i < |es| :: updates[i] in updates;
    }
  }

  lemma {:induction false} EvolvesTemp(a: Fs, b: Fs, t: nat)
    requires Evolves(a, b) && t in a.temps
    ensures t in b.temps && b.temps[t] == a.temps[t]
  {}

  lemma {:induction false} StageStart(f: Fs)
    ensures Evolves(f, f) && Accounted(f, f, [])
  {
    EvolvesSelf(f);
  }

  lemma {:induction false} EvolvesUntouched(a: Fs, b: Fs)
    requires Evolves(a, b)
    ensures a.touched <= b.touched
    ensures forall p | p !in b.touched :: At(a.theirs, p) == At(b.theirs, p)
  {}

  lemma {:induction false} AccountedSame(base: Fs, a: Fs, b: Fs, es: seq<Entry>)
    requires Accounted(base, a, es) && b.temps == a.temps && b.nextTemp == a.nextTemp
    ensures Accounted(base, b, es)
  {}

  lemma {:induction false} AccountedUnlink(base: Fs, f: Fs, g: Fs, es: seq<Entry>)
    requires Accounted(base, f, es) && g.temps == f.temps && g.nextTemp == f.nextTemp
    ensures Accounted(base, g, es)
  {}

  lemma {:induction false} StagedAt(f: Fs, es: seq<Entry>, k: nat)
    requires Progress(f, es, k) && k < |es|
    ensures Staged(f, es[k]) && es[k].stage.value in TempsOf(es[k])
  {}

  lemma {:induction false} CommittedAt(f: Fs, es: seq<Entry>, i: nat, k: nat, problems: seq<Problem>)
    requires Undone(f, es, i + 1, k, problems)
    ensures i < |es| && Committed(f, es[i])
    ensures es[i].backup.Some? ==> es[i].backup.value in TempsOf(es[i]) && es[i].backup.value in f.temps
  {}

  lemma {:induction false} UndoBounds(f: Fs, es: seq<Entry>, k: nat)
    requires Undone(f, es, k, k, [])
    ensures k <= |es|
  {}

  lemma {:induction false} UndoStart(f: Fs, es: seq<Entry>, k: nat)
    requires Progress(f, es, k)
    ensures Undone(f, es, k, k, [])
  {}

  /** A path nobody else touched is, in `theirs`, what it was at the start. */
  ghost predicate UntouchedSince(base: Fs, f: Fs) {
    forall p | p !in f.touched :: At(f.theirs, p) == At(base.files, p)
  }

  lemma {:induction false} UntouchedOn(base: Fs, a: Fs, b: Fs)
    requires UntouchedSince(base, a) && a.touched <= b.touched
    requires forall p | p !in b.touched :: At(a.theirs, p) == At(b.theirs, p)
    ensures UntouchedSince(base, b)
  {
    forall p | p !in b.touched ensures At(b.theirs, p) == At(base.files, p) {
      assert At(a.theirs, p) == At(b.theirs, p);
    }
  }

  lemma {:induction false} NothingStaged(base: Fs, f: Fs)
    requires Sound(base) && base.theirs == base.files && Evolves(base, f) && f.temps == base.temps
    ensures Sound(f) && Undone(f, [], 0, 0, []) && Accounted(base, f, []) && Apart([]) && UntouchedSince(base, f)
  {
    EvolvesTheirs(base, f, {});
    EvolvesUntouched(base, f);
    assert Paths([], 0) == {};
  }

  lemma {:induction false} NothingReplaced(base: Fs, read: Fs, f: Fs, es: seq<Entry>)
    requires Sound(base) && base.theirs == base.files && Evolves(base, f) && Sound(f)
    requires Accounted(read, f, es) && read.temps == base.temps
    ensures Undone(f, es, 0, 0, []) && Accounted(base, f, es) && UntouchedSince(base, f)
  {
    EvolvesTheirs(base, f, {});
    EvolvesUntouched(base, f);
    assert Paths(es, 0) == {};
  }

  lemma {:induction false} AllStagedIsProgress(f: Fs, es: seq<Entry>)
    requires Undone(f, es, 0, 0, [])
    requires forall i | 0 <= i < |es| :: Staged(f, es[i])
    ensures Progress(f, es, 0)
  {}

  lemma {:induction false} PathsWithin(es: seq<Entry>, k: nat, updates: seq<Update>, expected: map<Path, Option<File>>)
    requires k <= |es| && (k == 0 || Matches(es, updates, expected))
    ensures forall p | p in Paths(es, k) :: exists j | 0 <= j < |updates| :: updates[j].path == p
  {
    forall p | p in Paths(es, k) ensures exists j | 0 <= j < |updates| :: updates[j].path == p {
      var i :| 0 <= i < k && es[i].path == p;
      assert updates[i].path == p;
    }
  }

  lemma {:induction false} NoTempLeft(base: Fs, f: Fs, es: seq<Entry>)
    requires Accounted(base, f, es)
    ensures f.temps - (AllTemps(es) - {}) == base.temps
  {
    assert (f.temps - AllTemps(es)).Keys == base.temps.Keys;
    assert AllTemps(es) - {} == AllTemps(es);
  }

  lemma {:induction false} FinishDone(base: Fs, f: Fs, g: Fs, es: seq<Entry>, updates: seq<Update>,
                                      expected: map<Path, Option<File>>)
    requires Progress(f, es, |es|) && Accounted(base, f, es) && Matches(es, updates, expected) && UntouchedSince(base, f)
    requires g == f.(temps := f.temps - (AllTemps(es) - {}))
    ensures Promise(base, g, updates, expected, Done)
  {
    NoTempLeft(base, f, es);
    PathsWithin(es, |es|, updates, expected);
    assert forall p | (forall k | 0 <= k < |updates| :: updates[k].path != p) :: p !in Paths(es, |es|);
    forall k | 0 <= k < |updates| ensures Replaced(g, updates[k], expected) {
      assert Committed(f, es[k]);
    }
  }

  lemma {:induction false} FinishUndone(base: Fs, f: Fs, g: Fs, es: seq<Entry>, k: nat, updates: seq<Update>,
                                        expected: map<Path, Option<File>>, problems: seq<Problem>)
    requires Undone(f, es, 0, k, problems) && Accounted(base, f, es) && UntouchedSince(base, f)
    requires forall p | p in Paths(es, k) :: exists j | 0 <= j < |updates| :: updates[j].path == p
    requires g == f.(temps := f.temps - (AllTemps(es) - Retained(problems)))
    ensures Promise(base, g, updates, expected, if problems == [] then RolledBack else NeedsReview(problems))
  {
    assert forall p | (forall j | 0 <= j < |updates| :: updates[j].path != p) :: p !in Paths(es, k);
    forall p ensures Settled(g, p) || RollbackFailedAt(problems, p) {
      if p in Paths(es, k) {
        var j :| 0 <= j < k && es[j].path == p;
        if !Settled(f, p) {
          assert Problem(es[j], RollbackFailed) in problems;
        }
      } else {
        assert At(f.files, p) == At(f.theirs, p);
      }
    }
    if problems == [] {
      NoTempLeft(base, f, es);
    } else {
      forall problem | problem in problems ensures ProblemHeld(g, problem) {
        if problem.entry.backup.Some? {
          InRetained(problems, problem);
        }
      }
    }
  }

  /** Review is needed only because somebody else wrote a destination, or because undoing failed. */
  lemma {:induction false} ReviewHasACause(world: World, before: Fs, after: Fs, updates: seq<Update>,
                                           expected: map<Path, Option<File>>, undoFrom: nat, problems: seq<Problem>)
    requires Promise(before, after, updates, expected, NeedsReview(problems))
    requires Explained(world, before, after, undoFrom, NeedsReview(problems))
    ensures after.touched != {} || FailsIn(world, undoFrom, after.step)
  {
    assert problems[0] in problems;
    assert problems[0].cause.EditedByOthers? ==> problems[0].entry.path in after.touched;
  }

  /**
   * Nothing is made from stale inputs. When the call is done, no input that was there when it was read,
   * and is not itself replaced, was written by anybody before the last destination was replaced.
   */
  lemma {:induction false} DoneFromFreshInputs(world: World, before: Fs, after: Fs, updates: seq<Update>,
                                               expected: map<Path, Option<File>>, p: Path, s: nat)
    requires InputsHeld(world, before, updates, expected, after.moved)
    requires p in expected && expected[p].Some? && expected[p].value.ident < before.clock
    requires forall k | 0 <= k < |updates| :: updates[k].path != p
    requires before.step <= s < after.moved && !world.edit(s).NoEdit?
    ensures world.edit(s).path != p
  {
    assert OldInput(before, updates, expected, p);
    assert world.edit(s).path in EditedIn(world, before.step, after.moved);
  }

  /**
   * All or nothing, with nothing left behind: whenever nobody else writes a file while the call runs,
   * and none of the steps of the rollback fails, however many of the steps before it do.
   */
  lemma {:induction false} AllOrNothing(world: World, before: Fs, after: Fs, updates: seq<Update>,
                                        expected: map<Path, Option<File>>, undoFrom: nat, outcome: Outcome)
    requires Promise(before, after, updates, expected, outcome) && Explained(world, before, after, undoFrom, outcome)
    requires before.touched == {} && EditedIn(world, before.step, after.step) == {}
    requires !FailsIn(world, undoFrom, after.step)
    ensures after.temps == before.temps
    ensures outcome.Done? || outcome.RolledBack?
    ensures outcome.Done? ==> forall k | 0 <= k < |updates| ::
      && updates[k].path in after.files && after.files[updates[k].path].content == updates[k].text
      && after.files[updates[k].path].mode == ModeFor(At(before.files, updates[k].path))
    ensures outcome.RolledBack? ==> forall p :: SameBytes(At(after.files, p), At(before.files, p))
    ensures forall p | (forall k | 0 <= k < |updates| :: updates[k].path != p) :: At(after.files, p) == At(before.files, p)
  {
    assert after.touched == {};
    match outcome {
      case Done =>
        forall k | 0 <= k < |updates|
          ensures && updates[k].path in after.files && after.files[updates[k].path].content == updates[k].text
                  && after.files[updates[k].path].mode == ModeFor(At(before.files, updates[k].path))
        {
          assert Replaced(after, updates[k], expected);
        }
      case RolledBack =>
        forall p ensures SameBytes(At(after.files, p), At(before.files, p)) {
          assert Settled(after, p);
        }
      case NeedsReview(problems) =>
        ReviewHasACause(world, before, after, updates, expected, undoFrom, problems);
        assert false;
    }
  }
}
