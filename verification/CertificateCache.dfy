/** The on-disk certificate caches: immutable file sets behind an atomically renamed file,
    used by any number of callers, in any number of processes, that overlap and crash. */
module CertificateCache {
  import opened Bytes

  /** How many files a set has, and whether the set replaced is deleted: three and yes in
      `trusted.js`, two and no in `node.js`. */
  datatype Config = Config(files: nat, rotates: bool)

  /** A file of a set, named by the set's identifier and its place in the set. */
  datatype FileName = FileName(gen: nat, slot: nat)

  datatype FileState = Partial | Complete

  /** Where one caller is. `prev` is the set its `previousAuthority` came from. */
  datatype Caller =
    | Reading
    | Holding(held: nat)
    | Checked(held: nat, read: set<nat>)
    | Generating(prev: Option<nat>)
    | Writing(gen: nat, prev: Option<nat>)
    | Written(gen: nat, prev: Option<nat>)
    | Staging(gen: nat, prev: Option<nat>, filled: bool)
    | Deleting(gen: nat, prev: Option<nat>)
    | Returned(gen: nat)
    /** A call that threw, or whose process died. The writes of its set and the deletions of
        the set it replaced that were already under way may still happen. */
    | Stopped(left: Option<nat>, doomed: Option<nat>)

  /** The files of the directory, the next fresh identifier, every value of the
      current file there has been, oldest first, and the callers. The last value is what it holds. */
  datatype State = State(files: map<FileName, FileState>, nextId: nat, published: seq<nat>, callers: map<nat, Caller>)

  datatype Move =
    | Enter
    | ReadCurrent
    | Validate(passes: bool)
    | ReadFile(slot: nat)
    | Reuse
    | Regenerate
    | Generate
    | Create(slot: nat)
    | Fill(slot: nat)
    | AllWritten
    | BeginCurrent
    | FillCurrent
    | Rename
    | Remove(slot: nat)
    | Finish
    /** A call throws for good, or the process dies. */
    | Stop

  datatype Action = Action(caller: nat, move: Move)

  function Current(s: State): Option<nat> {
    if s.published == [] then None else Some(s.published[|s.published| - 1])
  }

  predicate IsComplete(files: map<FileName, FileState>, name: FileName) {
    name in files && files[name] == Complete
  }

  /** The set is there, and every file of it was written to the end. */
  predicate Whole(cfg: Config, files: map<FileName, FileState>, g: nat) {
    forall i | 0 <= i < cfg.files :: IsComplete(files, FileName(g, i))
  }

  function MoveTo(s: State, caller: nat, c: Caller): State {
    s.(callers := s.callers[caller := c])
  }

  /** The set whose files a caller is writing: all of them are started at once. */
  function Writes(c: Caller): Option<nat> {
    match c
    case Writing(gen, _) => Some(gen)
    case Stopped(left, _) => left
    case _ => None
  }

  /** The set whose files a caller is deleting, likewise. */
  function Erases(c: Caller): Option<nat> {
    match c
    case Deleting(_, prev) => prev
    case Stopped(_, doomed) => doomed
    case _ => None
  }

  /** One step of one caller. A move its code cannot make where it is changes nothing. */
  function Step(cfg: Config, s: State, a: Action): State {
    if a.caller !in s.callers then
      if a.move == Enter then MoveTo(s, a.caller, Reading) else s
    else match Target(cfg, s, s.callers[a.caller], a.move)
      case Some(c) => MoveTo(s, a.caller, c).(
          files := Files(s, s.callers[a.caller], a.move),
          nextId := if a.move == Generate then s.nextId + 1 else s.nextId,
          published := if a.move == Rename then s.published + [s.callers[a.caller].gen] else s.published)
      case None => s
  }

  /** Where the move takes the caller; none when it is not one its code can make there. */
  function Target(cfg: Config, s: State, c: Caller, move: Move): (r: Option<Caller>)
    ensures move == Rename && r.Some? ==> c.Staging?
  {
    match (c, move)
    case (_, Stop) => Some(Stopped(Writes(c), Erases(c)))
    case (_, Create(slot)) =>
      if Writes(c).Some? && slot < cfg.files && FileName(Writes(c).value, slot) !in s.files then Some(c) else None
    case (_, Fill(slot)) =>
      if Writes(c).Some? && FileName(Writes(c).value, slot) in s.files then Some(c) else None
    case (_, Remove(slot)) => if Erases(c).Some? then Some(c) else None
    case (Reading, ReadCurrent) => Some(if Current(s).Some? then Holding(Current(s).value) else Generating(None))
    case (Holding(g), Validate(passes)) =>
      Some(if passes && (cfg.rotates ==> IsComplete(s.files, FileName(g, 0))) then Checked(g, {}) else Generating(None))
    case (Checked(g, read), ReadFile(slot)) =>
      if IsComplete(s.files, FileName(g, slot)) then Some(Checked(g, read + {slot})) else None
    case (Checked(g, read), Reuse) =>
      if forall slot: nat | slot < cfg.files :: slot in read then Some(Returned(g)) else None
    case (Checked(g, _), Regenerate) => Some(Generating(if cfg.rotates then Some(g) else None))
    case (Generating(prev), Generate) => Some(Writing(s.nextId, prev))
    case (Writing(g, prev), AllWritten) => if Whole(cfg, s.files, g) then Some(Written(g, prev)) else None
    case (Written(g, prev), BeginCurrent) => Some(Staging(g, prev, false))
    case (Staging(g, prev, _), FillCurrent) => Some(Staging(g, prev, true))
    case (Staging(g, prev, true), Rename) => Some(Deleting(g, prev))
    case (Deleting(g, _), Finish) => Some(Returned(g))
    case _ => None
  }

  /** What the move does to the files: open one exclusively, finish one, or delete one. */
  function Files(s: State, c: Caller, move: Move): map<FileName, FileState> {
    match move
    case Create(slot) => if Writes(c).Some? then s.files[FileName(Writes(c).value, slot) := Partial] else s.files
    case Fill(slot) => if Writes(c).Some? then s.files[FileName(Writes(c).value, slot) := Complete] else s.files
    case Remove(slot) => if Erases(c).Some? then s.files - {FileName(Erases(c).value, slot)} else s.files
    case _ => s.files
  }

  function Run(cfg: Config, s: State, actions: seq<Action>): State {
    if actions == [] then s else Step(cfg, Run(cfg, s, actions[..|actions| - 1]), actions[|actions| - 1])
  }

  const EMPTY := State(map[], 0, [], map[])

  // ---------------------------------------------------------------- what every step keeps

  ghost predicate DistinctValues(published: seq<nat>) {
    forall i, j | 0 <= i < j < |published| :: published[i] != published[j]
  }

  /** The current file held `p`, and has held another value since. */
  ghost predicate Superseded(published: seq<nat>, p: nat) {
    published != [] && p in published[..|published| - 1]
  }

  /** A caller that is still to publish its set, or stopped while writing it. */
  predicate Owns(c: Caller, g: nat) {
    match c
    case Writing(gen, _) => gen == g
    case Written(gen, _) => gen == g
    case Staging(gen, _, _) => gen == g
    case Stopped(left, _) => left == Some(g)
    case _ => false
  }

  ghost predicate PrevOk(s: State, prev: Option<nat>) {
    prev.Some? ==> prev.value in s.published
  }

  ghost predicate CallerOk(cfg: Config, s: State, c: Caller) {
    match c
    case Reading => true
    case Holding(g) => g in s.published
    case Checked(g, _) => g in s.published
    case Generating(prev) => PrevOk(s, prev)
    case Writing(g, prev) => g < s.nextId && g !in s.published && PrevOk(s, prev)
    case Written(g, prev) => g < s.nextId && g !in s.published && PrevOk(s, prev) && Whole(cfg, s.files, g)
    case Staging(g, prev, _) => g < s.nextId && g !in s.published && PrevOk(s, prev) && Whole(cfg, s.files, g)
    case Deleting(g, prev) => g in s.published && (prev.Some? ==> Superseded(s.published, prev.value))
    case Returned(g) => g in s.published
    case Stopped(left, doomed) =>
      && (left.Some? ==> left.value < s.nextId && left.value !in s.published)
      && (doomed.Some? ==> Superseded(s.published, doomed.value))
  }

  ghost predicate CallersOk(cfg: Config, s: State) {
    forall c | c in s.callers :: CallerOk(cfg, s, s.callers[c])
  }

  ghost predicate OwnersDiffer(s: State) {
    forall c, d, g: nat | c in s.callers && d in s.callers && c != d && Owns(s.callers[c], g) :: !Owns(s.callers[d], g)
  }

  /** No file of a published set is ever partial. */
  ghost predicate NamesOk(cfg: Config, files: map<FileName, FileState>, nextId: nat, published: seq<nat>) {
    forall name | name in files :: name.slot < cfg.files && name.gen < nextId
      && (name.gen in published ==> files[name] == Complete)
  }

  /** And the set the current file names is whole. */
  ghost predicate FilesOk(cfg: Config, s: State) {
    && (forall g | g in s.published :: g < s.nextId)
    && NamesOk(cfg, s.files, s.nextId, s.published)
    && (Current(s).Some? ==> Whole(cfg, s.files, Current(s).value))
  }

  predicate SparesAll(c: Caller) {
    && (c.Generating? || c.Writing? || c.Written? || c.Staging? ==> c.prev == None)
    && Erases(c) == None
  }

  /** Without rotation nobody has anything to delete, so no published set loses a file. */
  ghost predicate NothingLost(cfg: Config, s: State) {
    && (forall c | c in s.callers :: SparesAll(s.callers[c]))
    && (forall g | g in s.published :: Whole(cfg, s.files, g))
  }

  ghost predicate Inv(cfg: Config, s: State) {
    && DistinctValues(s.published)
    && CallersOk(cfg, s)
    && OwnersDiffer(s)
    && FilesOk(cfg, s)
    && (!cfg.rotates ==> NothingLost(cfg, s))
  }

  /** A file is deleted only out of a set the current file held earlier and will not hold again. */
  lemma {:induction false} OldIsNotCurrent(published: seq<nat>, p: nat)
    requires DistinctValues(published) && Superseded(published, p)
    ensures p != published[|published| - 1] && p in published
  {
  }

  lemma {:induction false} SupersededExtends(published: seq<nat>, p: nat, more: nat)
    requires p in published
    ensures Superseded(published + [more], p)
  {
    assert (published + [more])[..|published|] == published;
  }

  /** Only a deletion aimed at a set takes it apart. */
  lemma {:induction false} WholeKept(cfg: Config, s: State, c: Caller, move: Move, g: nat)
    requires Target(cfg, s, c, move).Some? && Whole(cfg, s.files, g)
    requires Erases(c) != Some(g)
    ensures Whole(cfg, Files(s, c, move), g)
  {
    hide Writes, Erases;
  }

  lemma {:induction false} FilesKept(cfg: Config, s: State, a: Action)
    requires Inv(cfg, s)
    ensures FilesOk(cfg, Step(cfg, s, a))
  {
    hide OwnersDiffer, NothingLost, Superseded, Whole, Files, DistinctValues;
    if a.caller in s.callers {
      var m := s.callers[a.caller];
      assert CallerOk(cfg, s, m);
      if Target(cfg, s, m, a.move).Some? {
        NamesKept(cfg, s, m, a.move);
        CurrentKept(cfg, s, m, a.move);
      }
    }
  }

  lemma {:induction false} NamesKept(cfg: Config, s: State, m: Caller, move: Move)
    requires NamesOk(cfg, s.files, s.nextId, s.published) && CallerOk(cfg, s, m) && Target(cfg, s, m, move).Some?
    ensures NamesOk(cfg, Files(s, m, move), s.nextId, s.published)
    ensures m.Staging? ==> NamesOk(cfg, Files(s, m, move), s.nextId, s.published + [m.gen])
  {
    hide Superseded;
  }

  lemma {:induction false} CurrentKept(cfg: Config, s: State, m: Caller, move: Move)
    requires DistinctValues(s.published) && CallerOk(cfg, s, m) && Target(cfg, s, m, move).Some?
    requires Current(s).Some? ==> Whole(cfg, s.files, Current(s).value)
    ensures Current(s).Some? ==> Whole(cfg, Files(s, m, move), Current(s).value)
    ensures m.Staging? ==> Whole(cfg, Files(s, m, move), m.gen)
  {
    hide Files, Target, Whole, Superseded;
    if Erases(m).Some? {
      OldIsNotCurrent(s.published, Erases(m).value);
    }
    if Current(s).Some? {
      WholeKept(cfg, s, m, move, Current(s).value);
    }
    if m.Staging? {
      WholeKept(cfg, s, m, move, m.gen);
    }
  }

  lemma {:induction false} CallersKept(cfg: Config, s: State, a: Action)
    requires Inv(cfg, s)
    ensures CallersOk(cfg, Step(cfg, s, a))
  {
    hide NothingLost;
    var s' := Step(cfg, s, a);
    forall c | c in s'.callers ensures CallerOk(cfg, s', s'.callers[c]) {
      if c != a.caller {
        BystanderKept(cfg, s, a, c);
      } else {
        MoverKept(cfg, s, a);
      }
    }
  }

  lemma {:induction false} BystanderKept(cfg: Config, s: State, a: Action, c: nat)
    requires Inv(cfg, s) && c != a.caller && c in s.callers
    ensures CallerOk(cfg, Step(cfg, s, a), s.callers[c])
  {
    hide NothingLost, Superseded, OwnersDiffer;
    var k := s.callers[c];
    assert CallerOk(cfg, s, k);
    if a.caller in s.callers {
      var m := s.callers[a.caller];
      assert CallerOk(cfg, s, m);
      if Target(cfg, s, m, a.move).Some? {
        if a.move == Rename {
          OthersDoNotOwn(s, a.caller, c, m.gen);
          SupersededStays(s.published, k, m.gen);
        }
        if Erases(m).Some? {
          OldIsNotCurrent(s.published, Erases(m).value);
        }
        if k.Written? || k.Staging? {
          WholeKept(cfg, s, m, a.move, k.gen);
        }
        hide Target, Files, Whole;
      }
    }
  }

  lemma {:induction false} OthersDoNotOwn(s: State, caller: nat, c: nat, g: nat)
    requires OwnersDiffer(s) && caller in s.callers && c in s.callers && c != caller && Owns(s.callers[caller], g)
    ensures !Owns(s.callers[c], g)
  {
  }

  lemma {:induction false} SupersededStays(published: seq<nat>, k: Caller, more: nat)
    ensures Erases(k).Some? && Superseded(published, Erases(k).value)
            ==> Superseded(published + [more], Erases(k).value)
  {
    if Erases(k).Some? && Superseded(published, Erases(k).value) {
      SupersededExtends(published, Erases(k).value, more);
    }
  }

  lemma {:induction false} MoverKept(cfg: Config, s: State, a: Action)
    requires Inv(cfg, s) && a.caller in Step(cfg, s, a).callers
    ensures var s' := Step(cfg, s, a); CallerOk(cfg, s', s'.callers[a.caller])
  {
    hide NothingLost, OwnersDiffer, NamesOk, DistinctValues;
    if a.caller in s.callers {
      var m := s.callers[a.caller];
      assert CallerOk(cfg, s, m);
      var t := Target(cfg, s, m, a.move);
      if t.Some? {
        if m.Writing? || m.Written? || m.Staging? {
          OwnerMoves(cfg, s, m, a.move, Step(cfg, s, a));
        } else {
          OtherMoves(cfg, s, m, a.move, Step(cfg, s, a));
        }
        hide Target, Files, CallerOk;
      }
    }
  }

  lemma {:induction false} OwnerMoves(cfg: Config, s: State, m: Caller, move: Move, s': State)
    requires CallerOk(cfg, s, m) && Target(cfg, s, m, move).Some?
    requires m.Writing? || m.Written? || m.Staging?
    requires s'.files == Files(s, m, move) && s'.nextId == s.nextId
    requires s'.published == if move == Rename then s.published + [m.gen] else s.published
    ensures CallerOk(cfg, s', Target(cfg, s, m, move).value)
  {
    hide Superseded, Files, Whole, IsComplete;
    if m.Staging? && m.prev.Some? {
      SupersededExtends(s.published, m.prev.value, m.gen);
    }
    if Whole(cfg, s.files, m.gen) {
      WholeKept(cfg, s, m, move, m.gen);
    }
  }

  lemma {:induction false} OtherMoves(cfg: Config, s: State, m: Caller, move: Move, s': State)
    requires CallerOk(cfg, s, m) && Target(cfg, s, m, move).Some?
    requires forall g | g in s.published :: g < s.nextId
    requires !(m.Writing? || m.Written? || m.Staging?)
    requires s'.published == s.published
    requires s'.nextId == if move == Generate then s.nextId + 1 else s.nextId
    ensures CallerOk(cfg, s', Target(cfg, s, m, move).value)
  {
    hide Superseded, Files, Whole, IsComplete;
  }

  lemma {:induction false} OwnersKept(cfg: Config, s: State, a: Action)
    requires Inv(cfg, s)
    ensures OwnersDiffer(Step(cfg, s, a))
  {
    hide NothingLost, FilesOk, Files, DistinctValues, Whole, IsComplete;
    var s' := Step(cfg, s, a);
    if a.caller in s.callers {
      var m := s.callers[a.caller];
      var t := Target(cfg, s, m, a.move);
      if t.Some? {
        forall g: nat | Owns(t.value, g) ensures Owns(m, g) || g == s.nextId {
          OwnershipMoves(cfg, s, m, a.move, g);
        }
        forall c | c in s.callers ensures !Owns(s.callers[c], s.nextId) {
          assert CallerOk(cfg, s, s.callers[c]);
        }
      }
      hide Target, CallerOk, Owns;
    }
  }

  lemma {:induction false} OwnershipMoves(cfg: Config, s: State, m: Caller, move: Move, g: nat)
    requires Target(cfg, s, m, move).Some? && Owns(Target(cfg, s, m, move).value, g)
    ensures Owns(m, g) || g == s.nextId
  {
    hide Whole, IsComplete;
  }

  lemma {:induction false} NothingLostKept(cfg: Config, s: State, a: Action)
    requires Inv(cfg, s) && !cfg.rotates
    ensures NothingLost(cfg, Step(cfg, s, a))
  {
    hide OwnersDiffer, DistinctValues, Superseded, Files, Whole, Target, CallersOk, FilesOk;
    if a.caller in s.callers {
      var m := s.callers[a.caller];
      if Target(cfg, s, m, a.move).Some? {
        SparesNothing(cfg, s, a.caller, a.move);
        forall g | g in s.published ensures Whole(cfg, Files(s, m, a.move), g) {
          WholeKept(cfg, s, m, a.move, g);
        }
      }
    }
  }

  /** A caller with nothing to delete never comes to have any, and what it publishes is whole. */
  lemma {:induction false} SparesNothing(cfg: Config, s: State, caller: nat, move: Move)
    requires Inv(cfg, s) && !cfg.rotates && caller in s.callers && Target(cfg, s, s.callers[caller], move).Some?
    ensures var m := s.callers[caller];
            && SparesAll(Target(cfg, s, m, move).value) && Erases(m) == None
            && (move == Rename ==> m.Staging? && Whole(cfg, Files(s, m, move), m.gen))
  {
    hide OwnersDiffer, DistinctValues, Superseded, Whole, FilesOk, IsComplete;
    assert SparesAll(s.callers[caller]) && CallerOk(cfg, s, s.callers[caller]);
  }

  lemma {:induction false} StepKeeps(cfg: Config, s: State, a: Action)
    requires Inv(cfg, s)
    ensures Inv(cfg, Step(cfg, s, a))
    ensures s.published <= Step(cfg, s, a).published
  {
    FilesKept(cfg, s, a);
    CallersKept(cfg, s, a);
    OwnersKept(cfg, s, a);
    if !cfg.rotates {
      NothingLostKept(cfg, s, a);
    }
    hide OwnersDiffer, NothingLost, FilesOk;
    if a.caller in s.callers {
      assert CallerOk(cfg, s, s.callers[a.caller]);
    }
  }

  // ---------------------------------------------------------------- whole runs

  lemma {:induction false} RunKeeps(cfg: Config, actions: seq<Action>)
    ensures Inv(cfg, Run(cfg, EMPTY, actions))
  {
    if actions != [] {
      var k := |actions| - 1;
      RunKeeps(cfg, actions[..k]);
      StepKeeps(cfg, Run(cfg, EMPTY, actions[..k]), actions[k]);
    }
  }

  /** Whatever the callers do, and wherever they crash, the set the current file names is whole. */
  lemma {:induction false} CurrentSetIsWhole(cfg: Config, actions: seq<Action>)
    ensures var s := Run(cfg, EMPTY, actions);
            Current(s).Some? ==> Whole(cfg, s.files, Current(s).value)
  {
    RunKeeps(cfg, actions);
  }

  /** A step that deletes a file deletes it from a set that the current file held before, and that
      it names neither before nor after the step. */
  lemma {:induction false} RotationSparesCurrentSet(cfg: Config, actions: seq<Action>, a: Action, name: FileName)
    requires var s := Run(cfg, EMPTY, actions);
             name in s.files && name !in Step(cfg, s, a).files
    ensures var s := Run(cfg, EMPTY, actions);
            && name.gen in s.published && cfg.rotates
            && Current(s) != Some(name.gen) && Current(Step(cfg, s, a)) != Some(name.gen)
  {
    RunKeeps(cfg, actions);
    var s := Run(cfg, EMPTY, actions);
    hide Run, FilesOk, OwnersDiffer;
    var c := s.callers[a.caller];
    assert Erases(c) == Some(name.gen);
    assert CallerOk(cfg, s, c);
    OldIsNotCurrent(s.published, name.gen);
  }

  /** A caller that follows the current file never reads a partial file, however late it reads. */
  lemma {:induction false} ReadersNeverSeePartialFiles(cfg: Config, actions: seq<Action>, caller: nat, slot: nat)
    requires var s := Run(cfg, EMPTY, actions);
             caller in s.callers && (s.callers[caller].Holding? || s.callers[caller].Checked?)
    ensures var s := Run(cfg, EMPTY, actions); var name := FileName(s.callers[caller].held, slot);
            name in s.files ==> s.files[name] == Complete
  {
    RunKeeps(cfg, actions);
    var s := Run(cfg, EMPTY, actions);
    assert CallerOk(cfg, s, s.callers[caller]);
  }

  /** The file was complete at some point of the run. */
  ghost predicate WasComplete(cfg: Config, actions: seq<Action>, name: FileName) {
    exists k | 0 <= k <= |actions| :: IsComplete(Run(cfg, EMPTY, actions[..k]).files, name)
  }

  lemma {:induction false} WasCompleteStays(cfg: Config, actions: seq<Action>, name: FileName)
    requires actions != [] && WasComplete(cfg, actions[..|actions| - 1], name)
    ensures WasComplete(cfg, actions, name)
  {
    hide Run, IsComplete;
    var before := actions[..|actions| - 1];
    var k :| 0 <= k <= |before| && IsComplete(Run(cfg, EMPTY, before[..k]).files, name);
    assert before[..k] == actions[..k];
  }

  /** What a caller has read of a set was complete when it read it. */
  lemma {:induction false} ReadsWereComplete(cfg: Config, actions: seq<Action>, caller: nat, slot: nat)
    requires var s := Run(cfg, EMPTY, actions);
             caller in s.callers && s.callers[caller].Checked? && slot in s.callers[caller].read
    ensures WasComplete(cfg, actions, FileName(Run(cfg, EMPTY, actions).callers[caller].held, slot))
  {
    if actions != [] {
      var k := |actions| - 1;
      var before, a := Run(cfg, EMPTY, actions[..k]), actions[k];
      var g := Run(cfg, EMPTY, actions).callers[caller].held;
      if a == Action(caller, ReadFile(slot)) && IsComplete(before.files, FileName(g, slot)) {
        assert IsComplete(Run(cfg, EMPTY, actions[..k]).files, FileName(g, slot));
      } else {
        ReadEarlier(cfg, before, a, caller, slot);
        ReadsWereComplete(cfg, actions[..k], caller, slot);
        WasCompleteStays(cfg, actions, FileName(g, slot));
      }
    }
  }

  lemma {:induction false} ReadEarlier(cfg: Config, s: State, a: Action, caller: nat, slot: nat)
    requires var c := Step(cfg, s, a).callers;
             caller in c && c[caller].Checked? && slot in c[caller].read
             && !(a == Action(caller, ReadFile(slot)) && IsComplete(s.files, FileName(c[caller].held, slot)))
    ensures caller in s.callers && s.callers[caller].Checked? && slot in s.callers[caller].read
    ensures s.callers[caller].held == Step(cfg, s, a).callers[caller].held
  {
    hide Files, Whole;
  }

  /** A set is handed out again only by a caller that has read every file of it, each complete. */
  lemma {:induction false} ReusedIsReadWhole(cfg: Config, actions: seq<Action>, a: Action, slot: nat)
    requires var s := Run(cfg, EMPTY, actions);
             && a.caller in s.callers && s.callers[a.caller].Checked? && slot < cfg.files
             && Step(cfg, s, a).callers[a.caller].Returned?
    ensures var s := Run(cfg, EMPTY, actions);
            && Step(cfg, s, a).callers[a.caller].gen == s.callers[a.caller].held
            && WasComplete(cfg, actions, FileName(s.callers[a.caller].held, slot))
  {
    ReadsWereComplete(cfg, actions, a.caller, slot);
    hide Run;
  }

  /** The caller finished writing the new current file aside, for the set `g`. */
  ghost predicate WasFilled(cfg: Config, actions: seq<Action>, caller: nat, g: nat) {
    exists k | 0 <= k < |actions| ::
      actions[k] == Action(caller, FillCurrent) && FillsFor(Run(cfg, EMPTY, actions[..k]), caller, g)
  }

  ghost predicate FillsFor(s: State, caller: nat, g: nat) {
    caller in s.callers && s.callers[caller].Staging? && s.callers[caller].gen == g
  }

  lemma {:induction false} FilledBefore(cfg: Config, actions: seq<Action>, caller: nat)
    requires var s := Run(cfg, EMPTY, actions);
             caller in s.callers && s.callers[caller].Staging? && s.callers[caller].filled
    ensures WasFilled(cfg, actions, caller, Run(cfg, EMPTY, actions).callers[caller].gen)
  {
    if actions != [] {
      var k := |actions| - 1;
      var before, g := Run(cfg, EMPTY, actions[..k]), Run(cfg, EMPTY, actions).callers[caller].gen;
      FilledByStep(cfg, before, actions[k], caller);
      if actions[k] == Action(caller, FillCurrent) && FillsFor(before, caller, g) {
      } else {
        FilledBefore(cfg, actions[..k], caller);
        var i :| 0 <= i < k && actions[..k][i] == Action(caller, FillCurrent)
          && FillsFor(Run(cfg, EMPTY, actions[..k][..i]), caller, g);
        assert actions[..k][..i] == actions[..i];
      }
    }
  }

  lemma {:induction false} FilledByStep(cfg: Config, s: State, a: Action, caller: nat)
    requires var c := Step(cfg, s, a).callers; caller in c && c[caller].Staging? && c[caller].filled
    ensures FillsFor(s, caller, Step(cfg, s, a).callers[caller].gen)
    ensures a == Action(caller, FillCurrent) || s.callers[caller] == Step(cfg, s, a).callers[caller]
  {
    hide Files, Whole;
  }

  /** The current file is replaced only by a rename, of a file that the same caller has finished
      writing for the set it publishes: nobody reads a current file half written. */
  lemma {:induction false} CurrentIsRenamedWhole(cfg: Config, actions: seq<Action>, a: Action)
    requires var s := Run(cfg, EMPTY, actions); Step(cfg, s, a).published != s.published
    ensures var s := Run(cfg, EMPTY, actions); var s' := Step(cfg, s, a);
            && a.move == Rename && Current(s').Some? && s'.published == s.published + [Current(s').value]
            && WasFilled(cfg, actions, a.caller, Current(s').value)
  {
    FilledBefore(cfg, actions, a.caller);
    hide Run, Files, Whole;
  }

  lemma {:induction false} RunExtends(cfg: Config, actions: seq<Action>, k: nat)
    requires k <= |actions|
    ensures Run(cfg, EMPTY, actions[..k]).published <= Run(cfg, EMPTY, actions).published
  {
    if k < |actions| {
      var n := |actions| - 1;
      assert actions[..n][..k] == actions[..k];
      RunExtends(cfg, actions[..n], k);
      RunKeeps(cfg, actions[..n]);
      StepKeeps(cfg, Run(cfg, EMPTY, actions[..n]), actions[n]);
    } else {
      assert actions[..k] == actions;
    }
  }

  /** No value of the current file ever returns: what it holds at two times it held throughout. */
  lemma {:induction false} CurrentNeverReturns(cfg: Config, actions: seq<Action>, i: nat, j: nat)
    requires i <= j <= |actions|
    requires Current(Run(cfg, EMPTY, actions[..i])).Some?
    requires Current(Run(cfg, EMPTY, actions[..i])) == Current(Run(cfg, EMPTY, actions))
    ensures Current(Run(cfg, EMPTY, actions[..j])) == Current(Run(cfg, EMPTY, actions))
  {
    hide Run, Inv, DistinctValues;
    RunDistinct(cfg, actions);
    RunExtends(cfg, actions, j);
    assert actions[..j][..i] == actions[..i];
    RunExtends(cfg, actions[..j], i);
    LastIsPinned(Run(cfg, EMPTY, actions[..i]).published, Run(cfg, EMPTY, actions[..j]).published,
                 Run(cfg, EMPTY, actions).published);
  }

  lemma {:induction false} RunDistinct(cfg: Config, actions: seq<Action>)
    ensures DistinctValues(Run(cfg, EMPTY, actions).published)
  {
    hide Run, CallersOk, OwnersDiffer, FilesOk, NothingLost, DistinctValues;
    RunKeeps(cfg, actions);
  }

  /** Without repetition, a shorter history that ends in the same value is the whole of it. */
  lemma {:induction false} LastIsPinned(p: seq<nat>, q: seq<nat>, r: seq<nat>)
    requires p <= q <= r && DistinctValues(r) && p != [] && p[|p| - 1] == r[|r| - 1]
    ensures q == r
  {
    assert r[|p| - 1] == r[|r| - 1];
  }

  /** The cache that deletes nothing keeps every set it ever published or handed out. */
  lemma {:induction false} WithoutRotationNothingIsLost(cfg: Config, actions: seq<Action>, caller: nat)
    requires !cfg.rotates
    ensures var s := Run(cfg, EMPTY, actions);
            && (forall g | g in s.published :: Whole(cfg, s.files, g))
            && (caller in s.callers && s.callers[caller].Returned? ==> Whole(cfg, s.files, s.callers[caller].gen))
  {
    RunKeeps(cfg, actions);
    var s := Run(cfg, EMPTY, actions);
    if caller in s.callers {
      assert CallerOk(cfg, s, s.callers[caller]);
    }
  }

  // ---------------------------------------------------------------- one call, uninterrupted

  /** The first `k` files of a set added, or taken away. */
  ghost function WithSet(files: map<FileName, FileState>, g: nat, k: nat): map<FileName, FileState> {
    if k == 0 then files else WithSet(files, g, k - 1)[FileName(g, k - 1) := Complete]
  }

  ghost function WithoutSet(files: map<FileName, FileState>, g: nat, k: nat): map<FileName, FileState> {
    if k == 0 then files else WithoutSet(files, g, k - 1) - {FileName(g, k - 1)}
  }

  lemma {:induction false} WithSetFile(files: map<FileName, FileState>, g: nat, k: nat, name: FileName)
    ensures name in WithSet(files, g, k) <==> name in files || (name.gen == g && name.slot < k)
    ensures name in WithSet(files, g, k) ==>
      WithSet(files, g, k)[name] == if name.gen == g && name.slot < k then Complete else files[name]
  {
    if k > 0 {
      WithSetFile(files, g, k - 1, name);
    }
  }

  lemma {:induction false} WithoutSetFile(files: map<FileName, FileState>, g: nat, k: nat, name: FileName)
    ensures name in WithoutSet(files, g, k) <==> name in files && !(name.gen == g && name.slot < k)
    ensures name in WithoutSet(files, g, k) ==> WithoutSet(files, g, k)[name] == files[name]
  {
    if k > 0 {
      WithoutSetFile(files, g, k - 1, name);
    }
  }

  lemma {:induction false} WriteOne(cfg: Config, s: State, caller: nat, g: nat, prev: Option<nat>, slot: nat)
    requires caller in s.callers && s.callers[caller] == Writing(g, prev)
    requires slot < cfg.files && FileName(g, slot) !in s.files
    ensures Step(cfg, Step(cfg, s, Action(caller, Create(slot))), Action(caller, Fill(slot)))
            == s.(files := s.files[FileName(g, slot) := Complete])
  {
    var s1 := Step(cfg, s, Action(caller, Create(slot)));
    assert s1 == s.(files := s.files[FileName(g, slot) := Partial]);
    hide Whole, IsComplete;
  }

  lemma {:induction false} AllWrittenOne(cfg: Config, s: State, caller: nat, g: nat, prev: Option<nat>)
    requires caller in s.callers && s.callers[caller] == Writing(g, prev) && Whole(cfg, s.files, g)
    ensures Step(cfg, s, Action(caller, AllWritten)) == MoveTo(s, caller, Written(g, prev))
  {
    hide Whole;
  }

  lemma {:induction false} BeginOne(cfg: Config, s: State, caller: nat, g: nat, prev: Option<nat>)
    requires caller in s.callers && s.callers[caller] == Written(g, prev)
    ensures Step(cfg, s, Action(caller, BeginCurrent)) == MoveTo(s, caller, Staging(g, prev, false))
  {
  }

  lemma {:induction false} FillOne(cfg: Config, s: State, caller: nat, g: nat, prev: Option<nat>)
    requires caller in s.callers && s.callers[caller] == Staging(g, prev, false)
    ensures Step(cfg, s, Action(caller, FillCurrent)) == MoveTo(s, caller, Staging(g, prev, true))
  {
  }

  lemma {:induction false} RenameOne(cfg: Config, s: State, caller: nat, g: nat, prev: Option<nat>)
    requires caller in s.callers && s.callers[caller] == Staging(g, prev, true)
    ensures Step(cfg, s, Action(caller, Rename))
            == MoveTo(s, caller, Deleting(g, prev)).(published := s.published + [g])
  {
  }

  lemma {:induction false} RemoveOne(cfg: Config, s: State, caller: nat, g: nat, p: nat, slot: nat)
    requires caller in s.callers && s.callers[caller] == Deleting(g, Some(p))
    ensures Step(cfg, s, Action(caller, Remove(slot))) == s.(files := s.files - {FileName(p, slot)})
  {
  }

  lemma {:induction false} FinishOne(cfg: Config, s: State, caller: nat, g: nat, prev: Option<nat>)
    requires caller in s.callers && s.callers[caller] == Deleting(g, prev)
    ensures Step(cfg, s, Action(caller, Finish)) == MoveTo(s, caller, Returned(g))
  {
  }

  lemma {:induction false} StartSteps(cfg: Config, s: State, caller: nat)
    requires caller !in s.callers
    ensures Step(cfg, Step(cfg, s, Action(caller, Enter)), Action(caller, ReadCurrent))
            == MoveTo(s, caller, if Current(s).Some? then Holding(Current(s).value) else Generating(None))
  {
    assert Step(cfg, s, Action(caller, Enter)) == MoveTo(s, caller, Reading);
  }

  lemma {:induction false} ValidateOne(cfg: Config, s: State, caller: nat, g: nat, passes: bool)
    requires caller in s.callers && s.callers[caller] == Holding(g) && IsComplete(s.files, FileName(g, 0))
    ensures Step(cfg, s, Action(caller, Validate(passes)))
            == MoveTo(s, caller, if passes then Checked(g, {}) else Generating(None))
  {
  }

  lemma {:induction false} ReadOne(cfg: Config, s: State, caller: nat, g: nat, read: set<nat>, slot: nat)
    requires caller in s.callers && s.callers[caller] == Checked(g, read) && IsComplete(s.files, FileName(g, slot))
    ensures Step(cfg, s, Action(caller, ReadFile(slot))) == MoveTo(s, caller, Checked(g, read + {slot}))
  {
  }

  lemma {:induction false} ReuseOne(cfg: Config, s: State, caller: nat, g: nat, read: set<nat>)
    requires caller in s.callers && s.callers[caller] == Checked(g, read)
    requires forall slot: nat | slot < cfg.files :: slot in read
    ensures Step(cfg, s, Action(caller, Reuse)) == MoveTo(s, caller, Returned(g))
  {
  }

  lemma {:induction false} CurrentIsReadable(cfg: Config, s: State, trace: seq<Action>)
    requires s == Run(cfg, EMPTY, trace) && cfg.files > 0
    ensures NamesOk(cfg, s.files, s.nextId, s.published)
    ensures var p := Current(s);
            p.Some? ==> p.value < s.nextId && Whole(cfg, s.files, p.value) && IsComplete(s.files, FileName(p.value, 0))
  {
    RunKeeps(cfg, trace);
    assert FilesOk(cfg, s);
    if s.published != [] {
      assert s.published[|s.published| - 1] in s.published;
    }
  }

  lemma {:induction false} RegenerateOne(cfg: Config, s: State, caller: nat, g: nat)
    requires caller in s.callers && s.callers[caller] == Checked(g, {})
    ensures Step(cfg, s, Action(caller, Regenerate))
            == MoveTo(s, caller, Generating(if cfg.rotates then Some(g) else None))
  {
  }

  lemma {:induction false} GenerateOne(cfg: Config, s: State, caller: nat, prev: Option<nat>)
    requires caller in s.callers && s.callers[caller] == Generating(prev)
    ensures Step(cfg, s, Action(caller, Generate))
            == MoveTo(s, caller, Writing(s.nextId, prev)).(nextId := s.nextId + 1)
  {
  }

  /** A fresh set written and a replaced one deleted, file by file. */
  lemma {:induction false} Rotated(cfg: Config, s: State, g: nat, prev: Option<nat>)
    requires NamesOk(cfg, s.files, s.nextId, s.published) && g == s.nextId && (prev.Some? ==> prev.value < g)
    ensures var f := WithSet(s.files, g, cfg.files);
            var f' := if prev.Some? then WithoutSet(f, prev.value, cfg.files) else f;
            && Whole(cfg, f', g)
            && forall name: FileName | name.gen != g ::
                 && (name in f' <==> name in s.files && prev != Some(name.gen))
                 && (name in f' ==> f'[name] == s.files[name])
  {
    var f := WithSet(s.files, g, cfg.files);
    forall name: FileName
      ensures name in f <==> name in s.files || (name.gen == g && name.slot < cfg.files)
      ensures name in f ==> f[name] == if name.gen == g && name.slot < cfg.files then Complete else s.files[name]
    {
      WithSetFile(s.files, g, cfg.files, name);
    }
    if prev.Some? {
      var f' := WithoutSet(f, prev.value, cfg.files);
      forall name: FileName
        ensures name in f' <==> name in f && !(name.gen == prev.value && name.slot < cfg.files)
        ensures name in f' ==> f'[name] == f[name]
      {
        WithoutSetFile(f, prev.value, cfg.files, name);
      }
    }
  }

  ghost predicate NoFileOf(files: map<FileName, FileState>, g: nat) {
    forall slot: nat :: FileName(g, slot) !in files
  }

  lemma {:induction false} FreshIsUnused(cfg: Config, s: State, trace: seq<Action>)
    requires s == Run(cfg, EMPTY, trace)
    ensures NoFileOf(s.files, s.nextId)
  {
    RunKeeps(cfg, trace);
    assert NamesOk(cfg, s.files, s.nextId, s.published);
  }

  lemma {:induction false} WithSetIsWhole(cfg: Config, files: map<FileName, FileState>, g: nat)
    ensures Whole(cfg, WithSet(files, g, cfg.files), g)
  {
    forall i | 0 <= i < cfg.files ensures IsComplete(WithSet(files, g, cfg.files), FileName(g, i)) {
      WithSetFile(files, g, cfg.files, FileName(g, i));
    }
  }

  /** The directory as one process sees it, with the run that led there. */
  class Directory {
    const cfg: Config
    var state: State
    ghost var trace: seq<Action>

    ghost predicate Valid()
      reads this
    {
      state == Run(cfg, EMPTY, trace)
    }

    constructor (cfg: Config)
      ensures this.cfg == cfg && state == EMPTY && Valid()
    {
      this.cfg := cfg;
      state := EMPTY;
      trace := [];
    }

    method Take(caller: nat, move: Move)
      requires Valid()
      modifies this
      ensures Valid() && state == Step(cfg, old(state), Action(caller, move))
    {
      state := Step(cfg, state, Action(caller, move));
      assert (trace + [Action(caller, move)])[..|trace|] == trace;
      trace := trace + [Action(caller, move)];
    }

    /** Read the current file, and the authority it names. */
    method ReadCache(caller: nat, authorityValid: bool)
      requires Valid() && caller !in state.callers
      requires Current(state).Some? ==> IsComplete(state.files, FileName(Current(state).value, 0))
      modifies this
      ensures Valid() && state == MoveTo(old(state), caller,
                if Current(old(state)).Some? && authorityValid then Checked(Current(old(state)).value, {})
                else Generating(None))
    {
      hide Run, Step, IsComplete;
      ghost var s := state;
      StartSteps(cfg, state, caller);
      Take(caller, Enter);
      Take(caller, ReadCurrent);
      var current := Current(state);
      if current.Some? {
        ValidateOne(cfg, state, caller, current.value, authorityValid);
        Take(caller, Validate(authorityValid));
      }
    }

    /** Read every file of the set the current file names. */
    method ReadSet(caller: nat, g: nat)
      requires Valid() && caller in state.callers && state.callers[caller] == Checked(g, {})
      requires Whole(cfg, state.files, g)
      modifies this
      ensures Valid() && state == MoveTo(old(state), caller, Returned(g))
    {
      hide Run, Step;
      ghost var s := state;
      ghost var read: set<nat> := {};
      for slot := 0 to cfg.files
        invariant Valid() && (forall i: nat | i < slot :: i in read)
        invariant state == MoveTo(s, caller, Checked(g, read))
      {
        ReadOne(cfg, state, caller, g, read, slot);
        Take(caller, ReadFile(slot));
        read := read + {slot};
      }
      ReuseOne(cfg, state, caller, g, read);
      Take(caller, Reuse);
    }

    /** Write the files of a fresh set. */
    method WriteFiles(caller: nat, g: nat, prev: Option<nat>)
      requires Valid() && caller in state.callers && state.callers[caller] == Writing(g, prev)
      requires NoFileOf(state.files, g)
      modifies this
      ensures Valid() && state == old(state).(files := WithSet(old(state.files), g, cfg.files))
    {
      hide Run, Step;
      ghost var s := state;
      for slot := 0 to cfg.files
        invariant Valid() && state == s.(files := WithSet(s.files, g, slot))
      {
        WithSetFile(s.files, g, slot, FileName(g, slot));
        WriteOne(cfg, state, caller, g, prev, slot);
        Take(caller, Create(slot));
        Take(caller, Fill(slot));
      }
    }

    /** Write the current file aside and rename it into place. */
    method PublishCurrent(caller: nat, g: nat, prev: Option<nat>)
      requires Valid() && caller in state.callers && state.callers[caller] == Writing(g, prev)
      requires Whole(cfg, state.files, g)
      modifies this
      ensures Valid()
      ensures state == MoveTo(old(state), caller, Deleting(g, prev)).(published := old(state.published) + [g])
    {
      hide Run, Step, Whole;
      AllWrittenOne(cfg, state, caller, g, prev);
      Take(caller, AllWritten);
      BeginOne(cfg, state, caller, g, prev);
      Take(caller, BeginCurrent);
      FillOne(cfg, state, caller, g, prev);
      Take(caller, FillCurrent);
      RenameOne(cfg, state, caller, g, prev);
      Take(caller, Rename);
    }

    /** Write a fresh set, then the current file. */
    method WriteSet(caller: nat, prev: Option<nat>) returns (g: nat)
      requires Valid() && caller in state.callers && state.callers[caller] == Generating(prev)
      modifies this
      ensures Valid() && g == old(state.nextId)
      ensures state == MoveTo(old(state), caller, Deleting(g, prev)).(nextId := g + 1,
                published := old(state.published) + [g], files := WithSet(old(state.files), g, cfg.files))
    {
      hide Run, Step, WithSet, NoFileOf, Whole;
      ghost var s := state;
      FreshIsUnused(cfg, s, trace);
      g := state.nextId;
      GenerateOne(cfg, state, caller, prev);
      Take(caller, Generate);
      WriteFiles(caller, g, prev);
      WithSetIsWhole(cfg, s.files, g);
      PublishCurrent(caller, g, prev);
    }

    /** Delete the replaced set, if its authority was validated. */
    method DeleteSet(caller: nat, g: nat, prev: Option<nat>)
      requires Valid() && caller in state.callers && state.callers[caller] == Deleting(g, prev)
      modifies this
      ensures Valid()
      ensures state == MoveTo(old(state), caller, Returned(g)).(
                files := if prev.Some? then WithoutSet(old(state.files), prev.value, cfg.files) else old(state.files))
    {
      hide Inv, Run, Step;
      ghost var s := state;
      if prev.Some? {
        for slot := 0 to cfg.files
          invariant Valid() && state == s.(files := WithoutSet(s.files, prev.value, slot))
        {
          RemoveOne(cfg, state, caller, g, prev.value, slot);
          Take(caller, Remove(slot));
        }
      }
      FinishOne(cfg, state, caller, g, prev);
      Take(caller, Finish);
    }

    /** Publish a fresh set and delete exactly the set replaced. */
    method Rotate(caller: nat, prev: Option<nat>) returns (g: nat)
      requires Valid() && caller in state.callers && state.callers[caller] == Generating(prev)
      requires NamesOk(cfg, state.files, state.nextId, state.published) && (prev.Some? ==> prev.value < state.nextId)
      modifies this
      ensures Valid() && g == old(state.nextId) && Whole(cfg, state.files, g)
      ensures state.published == old(state.published) + [g]
      ensures forall name: FileName | name.gen != g ::
                (name in state.files <==> name in old(state.files) && prev != Some(name.gen))
                && (name in state.files ==> state.files[name] == old(state.files[name]))
    {
      hide Run, Step, NamesOk, WithSet, WithoutSet, IsComplete, Whole;
      Rotated(cfg, state, state.nextId, prev);
      g := WriteSet(caller, prev);
      DeleteSet(caller, g, prev);
    }

    /** One call that nothing overlaps and nothing interrupts: it reuses the current set when
        that is fit, and otherwise publishes a fresh one and deletes exactly the set replaced. */
    method EnsureOnce(caller: nat, authorityValid: bool, reusable: bool) returns (g: nat, reused: bool)
      requires Valid() && cfg.files > 0 && caller !in state.callers
      modifies this
      ensures Valid() && Current(state) == Some(g) && Whole(cfg, state.files, g)
      ensures reused <==> Current(old(state)).Some? && authorityValid && reusable
      ensures reused ==> state.files == old(state.files) && state.published == old(state.published)
      ensures !reused ==> g == old(state.nextId) && state.published == old(state.published) + [g]
      ensures !reused ==> forall name: FileName | name.gen != g ::
                (name in state.files <==>
                  name in old(state.files) && !(cfg.rotates && authorityValid && Current(old(state)) == Some(name.gen)))
                && (name in state.files ==> state.files[name] == old(state.files[name]))
    {
      hide Run, Step, NamesOk, IsComplete, Whole;
      CurrentIsReadable(cfg, state, trace);
      var current := Current(state);
      ReadCache(caller, authorityValid);
      var prev: Option<nat> := None;
      if current.Some? && authorityValid {
        if reusable {
          ReadSet(caller, current.value);
          return current.value, true;
        }
        RegenerateOne(cfg, state, caller, current.value);
        Take(caller, Regenerate);
        prev := if cfg.rotates then current else None;
      }
      g := Rotate(caller, prev);
      reused := false;
    }
  }
}
