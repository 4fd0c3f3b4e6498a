/** Applying a whole patch to a workspace: every change is computed against the files as
    they are, and only then are the steps run. */
module PatchFiles {
  import opened Text
  import opened PatchFormat
  import opened PatchApply

  type Files = map<string, string>

  /** Patch path to file path: `resolve` under the working directory. */
  type Resolver = string -> string

  datatype Step = Write(path: string, text: string) | Remove(path: string)

  datatype ApplyError = BadPatch(parse: ParseError) | AlreadyExists(path: string) | NotFound(path: string)
    | NoContext(path: string, block: seq<string>) | StepFailed(path: string)

  function Lookup(files: Files, p: string): Option<string> {
    if p in files then Some(files[p]) else None
  }

  // ---- computing the steps ----

  function PlanChange(files: Files, resolve: Resolver, ch: FileChange): Result<seq<Step>, ApplyError> {
    var full := resolve(ch.path);
    match ch.kind
    case Add(content) => if full in files then Err(AlreadyExists(ch.path)) else Ok([Write(full, content)])
    case Delete => if full !in files then Err(NotFound(ch.path)) else Ok([Remove(full)])
    case Update(moveTo, sections) =>
      if full !in files then Err(NotFound(ch.path)) else
      match Updated(files[full], sections)
      case Err(block) => Err(NoContext(ch.path, block))
      case Ok(text) =>
        match moveTo
        case None => Ok([Write(full, text)])
        case Some(m) =>
          var dest := resolve(m);
          Ok([Write(dest, text)] + if dest != full then [Remove(full)] else [])
  }

  function Plan(files: Files, resolve: Resolver, changes: seq<FileChange>): Result<seq<Step>, ApplyError> {
    if changes == [] then Ok([]) else
    match PlanChange(files, resolve, changes[0])
    case Err(e) => Err(e)
    case Ok(steps) => Prepended(steps, Plan(files, resolve, changes[1..]))
  }

  /** Whether a change can be made to the files: an added file is not there yet, a deleted or
      updated one is, and every hunk of an update finds its place. */
  ghost predicate CanApply(files: Files, resolve: Resolver, ch: FileChange) {
    match ch.kind
    case Add(_) => resolve(ch.path) !in files
    case Delete => resolve(ch.path) in files
    case Update(_, sections) =>
      resolve(ch.path) in files && HasPlaces(files[resolve(ch.path)], sections)
  }

  /** The refusal names the file as the patch does, and what is wrong with it. */
  ghost predicate RefusedWith(files: Files, resolve: Resolver, ch: FileChange, e: ApplyError) {
    if ch.kind.Add? then e == AlreadyExists(ch.path)
    else if resolve(ch.path) !in files then e == NotFound(ch.path)
    else e.NoContext? && e.path == ch.path
  }

  lemma ChangeFailsIff(files: Files, resolve: Resolver, ch: FileChange)
    ensures PlanChange(files, resolve, ch).Ok? <==> CanApply(files, resolve, ch)
    ensures PlanChange(files, resolve, ch).Err? ==> RefusedWith(files, resolve, ch, PlanChange(files, resolve, ch).error)
  {
    hide Updated, HasPlaces;
    var full := resolve(ch.path);
    if ch.kind.Update? && full in files {
      UpdateFailsIff(files[full], ch.kind.sections);
      assert PlanChange(files, resolve, ch).Ok? <==> Updated(files[full], ch.kind.sections).Ok?;
    }
  }

  /** Validation fails exactly when some change cannot be made to the files as they are, and
      reports the first such change. */
  lemma {:induction false} PlanFailsIff(files: Files, resolve: Resolver, changes: seq<FileChange>)
    ensures Plan(files, resolve, changes).Ok? <==> forall i | 0 <= i < |changes| :: CanApply(files, resolve, changes[i])
    ensures Plan(files, resolve, changes).Err? ==> exists i | 0 <= i < |changes| ::
      && !CanApply(files, resolve, changes[i]) && (forall k | 0 <= k < i :: CanApply(files, resolve, changes[k]))
      && RefusedWith(files, resolve, changes[i], Plan(files, resolve, changes).error)
  {
    hide PlanChange, CanApply, RefusedWith;
    if changes != [] {
      ChangeFailsIff(files, resolve, changes[0]);
      PlanFailsIff(files, resolve, changes[1..]);
      assert forall i | 0 < i < |changes| :: changes[i] == changes[1..][i - 1];
      if PlanChange(files, resolve, changes[0]).Ok? && Plan(files, resolve, changes[1..]).Err? {
        var i :| 0 <= i < |changes| - 1 && !CanApply(files, resolve, changes[1..][i])
          && (forall k | 0 <= k < i :: CanApply(files, resolve, changes[1..][k]))
          && RefusedWith(files, resolve, changes[1..][i], Plan(files, resolve, changes[1..]).error);
        assert changes[i + 1] == changes[1..][i];
        assert forall k | 0 <= k < i + 1 :: CanApply(files, resolve, changes[k]);
      }
    }
  }

  // ---- running them ----

  /** The files after a run, and the path whose removal failed, if one did. */
  datatype Outcome = Outcome(files: Files, failed: Option<string>)

  function RunStep(files: Files, step: Step): Outcome {
    match step
    case Write(p, text) => Outcome(files[p := text], None)
    case Remove(p) => if p in files then Outcome(files - {p}, None) else Outcome(files, Some(p))
  }

  function RunSteps(files: Files, steps: seq<Step>): Outcome
    decreases |steps|
  {
    if steps == [] then Outcome(files, None) else
    var first := RunStep(files, steps[0]);
    if first.failed.Some? then first else RunSteps(first.files, steps[1..])
  }

  class Workspace {
    var files: Files
    const resolve: Resolver

    constructor (files: Files, resolve: Resolver)
      ensures this.files == files && this.resolve == resolve
    {
      this.files := files;
      this.resolve := resolve;
    }

    method PlanSteps(changes: seq<FileChange>) returns (r: Result<seq<Step>, ApplyError>)
      ensures r == Plan(files, resolve, changes)
    {
      hide PlanChange;
      var steps := [];
      PrependedNothing(Plan(files, resolve, changes));
      for i := 0 to |changes|
        invariant Plan(files, resolve, changes) == Prepended(steps, Plan(files, resolve, changes[i..]))
      {
        assert changes[i..][0] == changes[i] && changes[i..][1..] == changes[i + 1..];
        var one := PlanOne(changes[i]);
        if one.Err? { return Err(one.error); }
        PrependedTwice(steps, one.value, Plan(files, resolve, changes[i + 1..]));
        steps := steps + one.value;
      }
      assert steps + [] == steps;
      r := Ok(steps);
    }

    method PlanOne(ch: FileChange) returns (r: Result<seq<Step>, ApplyError>)
      ensures r == PlanChange(files, resolve, ch)
    {
      var full := resolve(ch.path);
      match ch.kind
      case Add(content) =>
        if full in files { return Err(AlreadyExists(ch.path)); }
        r := Ok([Write(full, content)]);
      case Delete =>
        if full !in files { return Err(NotFound(ch.path)); }
        r := Ok([Remove(full)]);
      case Update(moveTo, sections) =>
        if full !in files { return Err(NotFound(ch.path)); }
        var text := ApplyUpdate(files[full], sections);
        if text.Err? { return Err(NoContext(ch.path, text.error)); }
        if moveTo.None? { return Ok([Write(full, text.value)]); }
        var dest := resolve(moveTo.value);
        var steps := [Write(dest, text.value)];
        assert steps + [] == steps;
        if dest != full {
          steps := steps + [Remove(full)];
        }
        r := Ok(steps);
    }

    /** A parse or validation error leaves the files as they were; otherwise the steps
        computed from the old files are run in order. */
    method Apply(patch: string) returns (r: Result<nat, ApplyError>)
      modifies this`files
      ensures match Parsed(patch)
        case Err(e) => r == Err(BadPatch(e)) && files == old(files)
        case Ok(changes) =>
          match Plan(old(files), resolve, changes)
          case Err(e) => r == Err(e) && files == old(files)
          case Ok(steps) =>
            var out := RunSteps(old(files), steps);
            files == out.files && r == if out.failed.Some? then Err(StepFailed(out.failed.value)) else Ok(|changes|)
    {
      var changes := Parse(patch);
      if changes.Err? { return Err(BadPatch(changes.error)); }
      var plan := PlanSteps(changes.value);
      if plan.Err? { return Err(plan.error); }
      var steps := plan.value;
      ghost var before := files;
      for i := 0 to |steps|
        invariant RunSteps(before, steps) == RunSteps(files, steps[i..])
      {
        assert steps[i..][0] == steps[i] && steps[i..][1..] == steps[i + 1..];
        match steps[i]
        case Write(p, text) =>
          files := files[p := text];
        case Remove(p) =>
          if p !in files { return Err(StepFailed(p)); }
          files := files - {p};
      }
      r := Ok(|changes.value|);
    }
  }

  // ---- what a patch may touch ----

  /** `target_paths`: each change's path, and its rename destination. */
  function TargetPaths(changes: seq<FileChange>): seq<string> {
    if changes == [] then [] else
    var ch := changes[0];
    [ch.path] + (if ch.kind.Update? && ch.kind.moveTo.Some? then [ch.kind.moveTo.value] else []) + TargetPaths(changes[1..])
  }

  method ListTargets(patch: string) returns (paths: seq<string>)
    ensures paths == match Parsed(patch) case Ok(changes) => TargetPaths(changes) case Err(_) => []
  {
    hide Parsed;
    var parsed := Parse(patch);
    if parsed.Err? { return []; }
    paths := CollectTargets(parsed.value);
  }

  method CollectTargets(changes: seq<FileChange>) returns (paths: seq<string>)
    ensures paths == TargetPaths(changes)
  {
    paths := [];
    for i := 0 to |changes|
      invariant paths + TargetPaths(changes[i..]) == TargetPaths(changes)
    {
      var ch := changes[i];
      assert changes[i..][0] == ch && changes[i..][1..] == changes[i + 1..];
      paths := paths + [ch.path];
      if ch.kind.Update? && ch.kind.moveTo.Some? {
        paths := paths + [ch.kind.moveTo.value];
      }
    }
  }

  function Touched(resolve: Resolver, ch: FileChange): set<string> {
    {resolve(ch.path)} + if ch.kind.Update? && ch.kind.moveTo.Some? then {resolve(ch.kind.moveTo.value)} else {}
  }

  lemma {:induction false} TouchedAreTargets(resolve: Resolver, changes: seq<FileChange>, ch: FileChange, p: string)
    requires ch in changes && p in Touched(resolve, ch)
    ensures exists t :: t in TargetPaths(changes) && resolve(t) == p
  {
    if ch == changes[0] {
      assert ch.path in TargetPaths(changes);
      assert ch.kind.Update? && ch.kind.moveTo.Some? ==> ch.kind.moveTo.value in TargetPaths(changes);
    } else {
      TouchedAreTargets(resolve, changes[1..], ch, p);
      var t :| t in TargetPaths(changes[1..]) && resolve(t) == p;
      assert t in TargetPaths(changes);
    }
  }

  lemma PlanStaysInTouched(files: Files, resolve: Resolver, ch: FileChange)
    requires PlanChange(files, resolve, ch).Ok?
    ensures forall s | s in PlanChange(files, resolve, ch).value :: s.path in Touched(resolve, ch)
  {
  }

  lemma {:induction false} PlannedPaths(files: Files, resolve: Resolver, changes: seq<FileChange>)
    requires Plan(files, resolve, changes).Ok?
    ensures forall s | s in Plan(files, resolve, changes).value :: exists ch :: ch in changes && s.path in Touched(resolve, ch)
  {
    hide PlanChange, Touched;
    if changes != [] {
      PlanStaysInTouched(files, resolve, changes[0]);
      PlannedPaths(files, resolve, changes[1..]);
      forall s | s in Plan(files, resolve, changes).value
        ensures exists ch :: ch in changes && s.path in Touched(resolve, ch)
      {
        if s in PlanChange(files, resolve, changes[0]).value {
          assert changes[0] in changes;
        } else {
          var ch :| ch in changes[1..] && s.path in Touched(resolve, ch);
          assert ch in changes;
        }
      }
    }
  }

  lemma {:induction false} RunTouchesOnlySteps(files: Files, steps: seq<Step>, p: string)
    requires forall s | s in steps :: s.path != p
    ensures Lookup(RunSteps(files, steps).files, p) == Lookup(files, p)
    decreases |steps|
  {
    if steps != [] {
      assert steps[0] in steps;
      var first := RunStep(files, steps[0]);
      if first.failed.None? { RunTouchesOnlySteps(first.files, steps[1..], p); }
    }
  }

  /** Whether or not a step fails, a file no target path resolves to is left alone. */
  lemma OutsideTargetsUnchanged(files: Files, resolve: Resolver, changes: seq<FileChange>, p: string)
    requires Plan(files, resolve, changes).Ok?
    requires forall t | t in TargetPaths(changes) :: resolve(t) != p
    ensures Lookup(RunSteps(files, Plan(files, resolve, changes).value).files, p) == Lookup(files, p)
  {
    hide Plan, TargetPaths, Touched;
    var steps := Plan(files, resolve, changes).value;
    PlannedPaths(files, resolve, changes);
    forall s | s in steps ensures s.path != p {
      var ch :| ch in changes && s.path in Touched(resolve, ch);
      TouchedAreTargets(resolve, changes, ch, s.path);
    }
    RunTouchesOnlySteps(files, steps, p);
  }

  // ---- independent changes ----

  predicate Disjoint(resolve: Resolver, changes: seq<FileChange>) {
    forall i, j | 0 <= i < j < |changes| :: Touched(resolve, changes[i]) !! Touched(resolve, changes[j])
  }

  /** What one change alone makes of a path it touches. */
  function Effect(files: Files, resolve: Resolver, ch: FileChange, p: string): Option<string>
    requires PlanChange(files, resolve, ch).Ok?
  {
    match ch.kind
    case Add(content) => Some(content)
    case Delete => None
    case Update(moveTo, sections) =>
      var text := Updated(files[resolve(ch.path)], sections).value;
      if moveTo.None? || p == resolve(moveTo.value) then Some(text) else None
  }

  lemma {:induction false} RunConcat(files: Files, a: seq<Step>, b: seq<Step>)
    requires RunSteps(files, a).failed.None?
    ensures RunSteps(files, a + b) == RunSteps(RunSteps(files, a).files, b)
    decreases |a|
  {
    if a == [] {
      assert a + b == b;
    } else {
      assert (a + b)[0] == a[0] && (a + b)[1..] == a[1..] + b;
      RunConcat(RunStep(files, a[0]).files, a[1..], b);
    }
  }

  /** One change, planned on `files` and run on any `now` that agrees with them on its paths. */
  lemma ChangeTakesEffect(files: Files, now: Files, resolve: Resolver, ch: FileChange)
    requires PlanChange(files, resolve, ch).Ok?
    requires forall p | p in Touched(resolve, ch) :: Lookup(now, p) == Lookup(files, p)
    ensures var out := RunSteps(now, PlanChange(files, resolve, ch).value);
      && out.failed.None?
      && (forall p | p in Touched(resolve, ch) :: Lookup(out.files, p) == Effect(files, resolve, ch, p))
      && (forall p | p !in Touched(resolve, ch) :: Lookup(out.files, p) == Lookup(now, p))
  {
    hide Updated;
    var steps := PlanChange(files, resolve, ch).value;
    var full := resolve(ch.path);
    assert Lookup(now, full) == Lookup(files, full);
    var first := RunStep(now, steps[0]);
    assert RunSteps(now, steps) == RunSteps(first.files, steps[1..]);
    if |steps| == 2 {
      var second := RunStep(first.files, steps[1]);
      assert RunSteps(first.files, steps[1..]) == RunSteps(second.files, steps[1..][1..]);
    }
  }

  /** Change `ch` took effect in `now`. */
  ghost predicate TookEffect(files: Files, now: Files, resolve: Resolver, ch: FileChange) {
    PlanChange(files, resolve, ch).Ok? &&
    forall p | p in Touched(resolve, ch) :: Lookup(now, p) == Effect(files, resolve, ch, p)
  }

  predicate Untouched(resolve: Resolver, changes: seq<FileChange>, p: string) {
    forall i | 0 <= i < |changes| :: p !in Touched(resolve, changes[i])
  }

  lemma DisjointTail(resolve: Resolver, changes: seq<FileChange>, p: string)
    requires changes != [] && Disjoint(resolve, changes)
    ensures Disjoint(resolve, changes[1..])
    ensures p in Touched(resolve, changes[0]) ==> Untouched(resolve, changes[1..], p)
    ensures Untouched(resolve, changes, p) <==> p !in Touched(resolve, changes[0]) && Untouched(resolve, changes[1..], p)
  {
    hide Touched;
    assert forall i | 0 <= i < |changes| - 1 :: changes[1..][i] == changes[i + 1];
    assert forall i | 0 < i < |changes| :: changes[i] == changes[1..][i - 1];
  }

  lemma {:induction false} IndependentFrom(files: Files, now: Files, resolve: Resolver, changes: seq<FileChange>)
    requires Plan(files, resolve, changes).Ok? && Disjoint(resolve, changes)
    requires forall p | !Untouched(resolve, changes, p) :: Lookup(now, p) == Lookup(files, p)
    ensures var out := RunSteps(now, Plan(files, resolve, changes).value);
      && out.failed.None?
      && (forall i | 0 <= i < |changes| :: TookEffect(files, out.files, resolve, changes[i]))
      && (forall p | Untouched(resolve, changes, p) :: Lookup(out.files, p) == Lookup(now, p))
    decreases |changes|
  {
    hide PlanChange, Touched, Lookup, Effect, Untouched, Disjoint;
    if changes == [] {
    } else {
      var ch := changes[0];
      var steps, rest := PlanChange(files, resolve, ch).value, Plan(files, resolve, changes[1..]).value;
      forall p ensures
        && (p in Touched(resolve, ch) ==> Untouched(resolve, changes[1..], p))
        && (Untouched(resolve, changes, p) <==> p !in Touched(resolve, ch) && Untouched(resolve, changes[1..], p))
      {
        DisjointTail(resolve, changes, p);
      }
      DisjointTail(resolve, changes, "");
      ChangeTakesEffect(files, now, resolve, ch);
      var mid := RunSteps(now, steps).files;
      IndependentFrom(files, mid, resolve, changes[1..]);
      RunConcat(now, steps, rest);
      assert forall i | 0 < i < |changes| :: changes[i] == changes[1..][i - 1];
    }
  }

  /** When no two changes touch the same file, every step succeeds and the outcome is each
      change applied on its own to the original files. */
  lemma DisjointChangesAreIndependent(files: Files, resolve: Resolver, changes: seq<FileChange>)
    requires Plan(files, resolve, changes).Ok? && Disjoint(resolve, changes)
    ensures var out := RunSteps(files, Plan(files, resolve, changes).value);
      && out.failed.None?
      && (forall i | 0 <= i < |changes| :: TookEffect(files, out.files, resolve, changes[i]))
      && (forall p | Untouched(resolve, changes, p) :: Lookup(out.files, p) == Lookup(files, p))
  {
    hide PlanChange, Touched, Lookup, Effect, Untouched, Disjoint;
    IndependentFrom(files, files, resolve, changes);
  }

  // ---- when a step fails ----

  /** The file a change writes, if any. */
  function Written(resolve: Resolver, ch: FileChange): Option<string> {
    match ch.kind
    case Add(_) => Some(resolve(ch.path))
    case Delete => None
    case Update(moveTo, _) => Some(resolve(if moveTo.Some? then moveTo.value else ch.path))
  }

  /** The file a change removes, if any: a deleted one, or one moved elsewhere. */
  function Removed(resolve: Resolver, ch: FileChange): Option<string> {
    match ch.kind
    case Add(_) => None
    case Delete => Some(resolve(ch.path))
    case Update(moveTo, _) =>
      if moveTo.Some? && resolve(moveTo.value) != resolve(ch.path) then Some(resolve(ch.path)) else None
  }

  /** Changes `i` and `j` remove the same file, and none between them writes it. */
  ghost predicate RemovedTwice(resolve: Resolver, changes: seq<FileChange>, i: nat, j: nat) {
    i < j < |changes| && Removed(resolve, changes[j]).Some? && Removed(resolve, changes[i]) == Removed(resolve, changes[j])
    && forall k | i < k < j :: Written(resolve, changes[k]) != Removed(resolve, changes[j])
  }

  /** Whether `p` is there after `changes` were made on `files`: the last to touch it decides. */
  function PresentAfter(files: Files, resolve: Resolver, changes: seq<FileChange>, p: string): bool {
    if changes == [] then p in files else
      var last := changes[|changes| - 1];
      if Removed(resolve, last) == Some(p) then false
      else if Written(resolve, last) == Some(p) then true
      else PresentAfter(files, resolve, changes[..|changes| - 1], p)
  }

  /** One planned change run on any files: it fails exactly when the file it removes is gone. */
  lemma ChangeRuns(files: Files, now: Files, resolve: Resolver, ch: FileChange)
    requires PlanChange(files, resolve, ch).Ok?
    ensures var out := RunSteps(now, PlanChange(files, resolve, ch).value);
      && (out.failed.Some? <==> Removed(resolve, ch).Some? && Removed(resolve, ch).value !in now)
      && (out.failed.None? ==> forall p :: p in out.files <==> PresentAfter(now, resolve, [ch], p))
    ensures Removed(resolve, ch).Some? ==> Removed(resolve, ch).value in files
  {
    hide Updated;
    var steps := PlanChange(files, resolve, ch).value;
    assert [ch][..0] == [];
    RunOne(now, steps[0]);
    if |steps| == 1 {
      assert steps == [steps[0]];
    } else {
      assert steps == [steps[0], steps[1]] && steps[0].Write?;
      RunOne(now[steps[0].path := steps[0].text], steps[1]);
      RunConcat(now, [steps[0]], [steps[1]]);
    }
  }

  lemma RunOne(files: Files, step: Step)
    ensures RunSteps(files, [step]) == RunStep(files, step)
  {
  }

  lemma {:induction false} PresentAfterFirst(files: Files, now: Files, resolve: Resolver, changes: seq<FileChange>, p: string)
    requires changes != [] && (p in now <==> PresentAfter(files, resolve, [changes[0]], p))
    ensures PresentAfter(files, resolve, changes, p) == PresentAfter(now, resolve, changes[1..], p)
    decreases |changes|
  {
    hide Removed, Written;
    if |changes| > 1 {
      assert changes[1..][..|changes| - 2] == changes[..|changes| - 1][1..];
      PresentAfterFirst(files, now, resolve, changes[..|changes| - 1], p);
    } else {
      assert changes == [changes[0]] && changes[1..] == [];
    }
  }

  /** Change `j` removes a file that is gone by then. */
  ghost predicate RemovesAbsent(files: Files, resolve: Resolver, changes: seq<FileChange>, j: nat) {
    j < |changes| && Removed(resolve, changes[j]).Some?
    && !PresentAfter(files, resolve, changes[..j], Removed(resolve, changes[j]).value)
  }

  lemma RemovesAbsentLater(files: Files, now: Files, resolve: Resolver, changes: seq<FileChange>, j: nat)
    requires changes != [] && forall p :: p in now <==> PresentAfter(files, resolve, [changes[0]], p)
    ensures RemovesAbsent(files, resolve, changes, j + 1) <==> RemovesAbsent(now, resolve, changes[1..], j)
  {
    hide Removed, Written, PresentAfter;
    if j + 1 < |changes| && Removed(resolve, changes[j + 1]).Some? {
      assert changes[..j + 1][1..] == changes[1..][..j];
      PresentAfterFirst(files, now, resolve, changes[..j + 1], Removed(resolve, changes[j + 1]).value);
    }
  }

  lemma {:induction false} RunFailsFrom(files: Files, now: Files, resolve: Resolver, changes: seq<FileChange>)
    requires Plan(files, resolve, changes).Ok?
    ensures RunSteps(now, Plan(files, resolve, changes).value).failed.Some?
      <==> exists j: nat :: RemovesAbsent(now, resolve, changes, j)
    decreases |changes|
  {
    hide PlanChange, Removed, Written;
    if changes != [] {
      var first, rest := PlanChange(files, resolve, changes[0]).value, Plan(files, resolve, changes[1..]).value;
      var out := RunSteps(now, first);
      ChangeRuns(files, now, resolve, changes[0]);
      assert changes[..0] == [];
      assert RemovesAbsent(now, resolve, changes, 0) <==> out.failed.Some?;
      if out.failed.None? {
        RunConcat(now, first, rest);
        RunFailsFrom(files, out.files, resolve, changes[1..]);
        forall j: nat ensures RemovesAbsent(now, resolve, changes, j + 1) <==> RemovesAbsent(out.files, resolve, changes[1..], j) {
          RemovesAbsentLater(now, out.files, resolve, changes, j);
        }
        assert forall j: nat :: RemovesAbsent(now, resolve, changes, j) ==> j > 0 && RemovesAbsent(out.files, resolve, changes[1..], j - 1);
      } else {
        FailureStops(now, first, rest);
      }
    }
  }

  lemma {:induction false} FailureStops(files: Files, a: seq<Step>, b: seq<Step>)
    requires RunSteps(files, a).failed.Some?
    ensures RunSteps(files, a + b) == RunSteps(files, a)
    decreases |a|
  {
    assert (a + b)[0] == a[0] && (a + b)[1..] == a[1..] + b;
    if RunStep(files, a[0]).failed.None? { FailureStops(RunStep(files, a[0]).files, a[1..], b); }
  }

  /** Change `i` removes `p`, and none after it writes `p`. */
  ghost predicate RemovesLast(resolve: Resolver, changes: seq<FileChange>, p: string, i: nat) {
    i < |changes| && Removed(resolve, changes[i]) == Some(p)
    && forall k | i < k < |changes| :: Written(resolve, changes[k]) != Some(p)
  }

  /** A file that was there is gone exactly when some change removed it and none wrote it since. */
  lemma {:induction false} GoneIff(files: Files, resolve: Resolver, changes: seq<FileChange>, p: string)
    requires p in files
    ensures !PresentAfter(files, resolve, changes, p) <==> exists i: nat :: RemovesLast(resolve, changes, p, i)
  {
    if changes != [] {
      var n := |changes| - 1;
      GoneIff(files, resolve, changes[..n], p);
      if Removed(resolve, changes[n]) == Some(p) {
        assert RemovesLast(resolve, changes, p, n);
      } else if Written(resolve, changes[n]) != Some(p) {
        forall i: nat ensures RemovesLast(resolve, changes[..n], p, i) <==> RemovesLast(resolve, changes, p, i) {
          assert forall k | 0 <= k < n :: changes[..n][k] == changes[k];
        }
      }
    }
  }

  /** A patch that passes validation fails on the way exactly when two of its changes remove
      the same file and none between them writes it. */
  lemma RunFailsIff(files: Files, resolve: Resolver, changes: seq<FileChange>)
    requires Plan(files, resolve, changes).Ok?
    ensures RunSteps(files, Plan(files, resolve, changes).value).failed.Some?
      <==> exists i: nat, j: nat :: RemovedTwice(resolve, changes, i, j)
  {
    hide Removed, Written, PresentAfter, Plan;
    RunFailsFrom(files, files, resolve, changes);
    forall j: nat | j < |changes| && Removed(resolve, changes[j]).Some?
      ensures RemovesAbsent(files, resolve, changes, j) <==> exists i: nat :: RemovedTwice(resolve, changes, i, j)
    {
      var p := Removed(resolve, changes[j]).value;
      RemovedIsThere(files, resolve, changes, j);
      GoneIff(files, resolve, changes[..j], p);
      forall i: nat ensures RemovesLast(resolve, changes[..j], p, i) <==> RemovedTwice(resolve, changes, i, j) {
        assert forall k | 0 <= k < j :: changes[..j][k] == changes[k];
      }
    }
  }

  lemma {:induction false} RemovedIsThere(files: Files, resolve: Resolver, changes: seq<FileChange>, j: nat)
    requires Plan(files, resolve, changes).Ok? && j < |changes| && Removed(resolve, changes[j]).Some?
    ensures Removed(resolve, changes[j]).value in files
    decreases |changes|
  {
    hide Removed, PlanChange;
    if j == 0 { ChangeRuns(files, files, resolve, changes[0]); } else { RemovedIsThere(files, resolve, changes[1..], j - 1); }
  }

  /** Two deletions of one file pass validation, and the second then fails with the file gone. */
  lemma DeletingTwiceFails(files: Files, resolve: Resolver, path: string)
    requires resolve(path) in files
    ensures var changes := [FileChange(path, Delete), FileChange(path, Delete)];
      && Plan(files, resolve, changes).Ok?
      && RunSteps(files, Plan(files, resolve, changes).value) == Outcome(files - {resolve(path)}, Some(resolve(path)))
  {
    var c := FileChange(path, Delete);
    var r := Remove(resolve(path));
    assert [c, c][1..] == [c] && [c][1..] == [];
    assert Plan(files, resolve, [c]) == Prepended([r], Plan(files, resolve, []));
    assert [r] + [] == [r] && [r] + [r] == [r, r];
    assert [r, r][1..] == [r];
  }
}
