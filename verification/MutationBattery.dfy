/** The mutation battery: apply each declared mutant to a clone of the tree, run the suites it
    claims to be killed by, put the file back, and give a verdict. Files are character sequences;
    a test run is an arbitrary function of how many runs came before it, the tree it sees and what
    it is asked to run, and writes nothing.
 */
module MutationBattery {
  import opened Wrappers

  type Path = string
  type Tree = map<Path, string>

  datatype Mutant = Mutant(
    id: string, file: Path, tests: seq<string>, find: Option<string>, replace: Option<string>,
    until: Option<string>, needsPg: bool)

  // ---------------------------------------------------------------------------------
  // Searching a string
  // ---------------------------------------------------------------------------------

  predicate OccursAt(s: string, p: string, i: int) {
    0 <= i <= i + |p| <= |s| && s[i..i + |p|] == p
  }

  /** `i` is where `p` first occurs in `s` at or after `from`. */
  predicate FirstAt(s: string, p: string, from: nat, i: int) {
    from <= i && OccursAt(s, p, i) && forall j | from <= j < i :: !OccursAt(s, p, j)
  }

  function Index(s: string, p: string, from: nat): (r: Option<nat>)
    requires from <= |s|
    ensures r.Some? ==> FirstAt(s, p, from, r.value)
    ensures r.None? ==> forall j | from <= j :: !OccursAt(s, p, j)
    decreases |s| - from
  {
    if from + |p| > |s| then None
    else if OccursAt(s, p, from) then Some(from)
    else Index(s, p, from + 1)
  }

  // ---------------------------------------------------------------------------------
  // One mutation
  // ---------------------------------------------------------------------------------

  datatype Refusal = FileAbsent | NoFindAnchor | AnchorNotMatched | UntilNotMatched | NoOp

  datatype Outcome = Mutated(text: string) | Refused(why: Refusal)

  function Text(o: Option<string>): string {
    if o.Some? then o.value else ""
  }

  function Spliced(s: string, start: nat, end: nat, insert: string): string
    requires start <= end <= |s|
  {
    s[..start] + insert + s[end..]
  }

  /** What the mutation makes of a file's text. */
  function Mutate(m: Mutant, source: string): Outcome {
    if m.find.None? then Refused(NoFindAnchor)
    else match Index(source, m.find.value, 0)
      case None => Refused(AnchorNotMatched)
      case Some(start) =>
        if m.until.Some? then
          match Index(source, m.until.value, start)
          case None => Refused(UntilNotMatched)
          case Some(end) => Changed(source, Spliced(source, start, end, ""))
        else Changed(source, Spliced(source, start, start + |m.find.value|, Text(m.replace)))
  }

  function Changed(source: string, text: string): Outcome {
    if text == source then Refused(NoOp) else Mutated(text)
  }

  /** `text` is `source` with one stretch replaced. It starts at the first occurrence of `find`. It ends
      at the first `until` from there, when there is one, and nothing takes its place; or else it ends
      with `find` itself, and the replacement, if there is one, takes its place. */
  predicate OneEdit(m: Mutant, source: string, text: string, start: nat, end: nat) {
    && m.find.Some? && start <= end <= |source|
    && FirstAt(source, m.find.value, 0, start)
    && match m.until
       case Some(until) => FirstAt(source, until, start, end) && text == source[..start] + source[end..]
       case None =>
         && end == start + |m.find.value|
         && match m.replace
            case Some(replacement) => text == source[..start] + replacement + source[end..]
            case None => text == source[..start] + source[end..]
  }

  /** The replacement is the anchor. */
  predicate WritesItBack(m: Mutant)
    requires m.find.Some?
  {
    m.replace == Some(m.find.value) || (m.replace == None && m.find.value == "")
  }

  /** A mutation that is applied is one edit, and a real one. */
  lemma MutationIsOneEdit(m: Mutant, source: string)
    requires Mutate(m, source).Mutated?
    ensures Mutate(m, source).text != source
    ensures exists start: nat, end: nat :: OneEdit(m, source, Mutate(m, source).text, start, end)
  {
    var start := Index(source, m.find.value, 0).value;
    assert source[..start] + "" == source[..start];
    if m.until.Some? {
      var end := Index(source, m.until.value, start).value;
      assert OneEdit(m, source, Mutate(m, source).text, start, end);
    } else {
      assert OneEdit(m, source, Mutate(m, source).text, start, start + |m.find.value|);
    }
  }

  /** And it is refused exactly when there is no such edit, or the edit changes nothing. */
  lemma RefusedExactly(m: Mutant, source: string)
    ensures Mutate(m, source).Mutated? <==>
            exists text, start: nat, end: nat :: OneEdit(m, source, text, start, end) && text != source
  {
    if Mutate(m, source).Mutated? {
      MutationIsOneEdit(m, source);
      var start: nat, end: nat :| OneEdit(m, source, Mutate(m, source).text, start, end);
      assert OneEdit(m, source, Mutate(m, source).text, start, end);
    }
    if text, start: nat, end: nat :| OneEdit(m, source, text, start, end) && text != source {
      EditIsUnique(m, source, text, start, end);
    }
  }

  lemma EditIsUnique(m: Mutant, source: string, text: string, start: nat, end: nat)
    requires OneEdit(m, source, text, start, end)
    ensures Mutate(m, source) == if text == source then Refused(NoOp) else Mutated(text)
  {
    assert source[..start] + "" == source[..start];
  }

  /** When a found anchor still changes nothing: the replacement is the anchor itself, or the block
      to delete is empty because `until` stands where `find` does. */
  lemma NoOpExactly(m: Mutant, source: string)
    requires m.find.Some? && Index(source, m.find.value, 0).Some?
    ensures m.until.None? ==> (Mutate(m, source) == Refused(NoOp) <==> WritesItBack(m))
    ensures m.until.Some? ==>
              (Mutate(m, source) == Refused(NoOp) <==>
               Index(source, m.until.value, Index(source, m.find.value, 0).value) == Index(source, m.find.value, 0))
  {
  }

  /** A mutant that replaces writes its replacement where its anchor first stands, one without a
      replacement deletes the anchor, and both leave the rest of the file alone; they are refused as a
      no-op exactly when they would write the anchor back. */
  lemma ReplacementIsWritten(m: Mutant, source: string, start: nat)
    requires m.find.Some? && m.until.None? && FirstAt(source, m.find.value, 0, start)
    ensures Mutate(m, source) == Refused(NoOp) <==> WritesItBack(m)
    ensures !WritesItBack(m) ==>
              && Mutate(m, source).Mutated?
              && Mutate(m, source).text ==
                 match m.replace
                 case Some(replacement) => source[..start] + replacement + source[start + |m.find.value|..]
                 case None => source[..start] + source[start + |m.find.value|..]
  {
    NoOpExactly(m, source);
    assert source[..start] + "" == source[..start];
  }

  /** A mutant that deletes a block cuts from where its anchor first stands up to where `until` first
      stands from there, `until` itself left in; a replacement, if it has one, is not written. */
  lemma BlockIsDeleted(m: Mutant, source: string, start: nat, end: nat)
    requires m.find.Some? && m.until.Some? && FirstAt(source, m.find.value, 0, start) && FirstAt(source, m.until.value, start, end)
    ensures start == end ==> Mutate(m, source) == Refused(NoOp)
    ensures start < end ==> Mutate(m, source).Mutated? && Mutate(m, source).text == source[..start] + source[end..]
  {
    NoOpExactly(m, source);
    assert source[..start] + "" == source[..start];
  }

  /** Which refusal it is when there is nothing to edit. */
  lemma WhyRefused(m: Mutant, source: string)
    ensures Mutate(m, source) == Refused(NoFindAnchor) <==> m.find.None?
    ensures Mutate(m, source) == Refused(AnchorNotMatched) <==> m.find.Some? && forall i :: !OccursAt(source, m.find.value, i)
    ensures Mutate(m, source) == Refused(UntilNotMatched) <==>
            && m.find.Some? && m.until.Some?
            && exists start :: FirstAt(source, m.find.value, 0, start) && forall i | start <= i :: !OccursAt(source, m.until.value, i)
    ensures Mutate(m, source) != Refused(FileAbsent)
  {
    if m.find.Some? && Index(source, m.find.value, 0).Some? {
      var start := Index(source, m.find.value, 0).value;
      assert OccursAt(source, m.find.value, start) && FirstAt(source, m.find.value, 0, start);
    }
  }

  // ---------------------------------------------------------------------------------
  // The specification of a battery
  // ---------------------------------------------------------------------------------

  /** What a test run is asked to run: the union of all suites, or one mutant's list. */
  datatype Targets = Union(suites: set<string>) | Of(tests: seq<string>)

  datatype Report = Report(exit: int, ran: nat)

  datatype Call = Call(tree: Tree, targets: Targets, needsPg: bool)

  /** The n-th test run of a battery. */
  type Pytest = (nat, Call) -> Report

  datatype Verdict = Killed(exit: int, ran: nat) | Survived(how: Survival)
  datatype Survival = NotApplied(why: Refusal) | NothingRan | StillPassed(ran: nat)

  function Judge(r: Report): Verdict {
    if r.ran == 0 then Survived(NothingRan)
    else if r.exit != 0 then Killed(r.exit, r.ran)
    else Survived(StillPassed(r.ran))
  }

  /** A mutant's file, mutated, in an otherwise unchanged tree. */
  function MutantCall(m: Mutant, tree: Tree): Call
    requires m.file in tree && Mutate(m, tree[m.file]).Mutated?
  {
    Call(tree[m.file := Mutate(m, tree[m.file]).text], Of(m.tests), m.needsPg)
  }

  datatype Play = Crashed(made: seq<Call>) | Played(verdicts: seq<Verdict>, made: seq<Call>)

  /** What one mutant's turn brings: its verdict, and the test run made for it when it was applied. */
  datatype Turn = Turn(verdict: Verdict, made: seq<Call>)

  function TurnOf(py: Pytest, clock: nat, tree: Tree, m: Mutant): (r: Turn)
    requires m.file in tree
  {
    match Mutate(m, tree[m.file])
    case Refused(why) => Turn(Survived(NotApplied(why)), [])
    case Mutated(_) => Turn(Judge(py(clock, MutantCall(m, tree))), [MutantCall(m, tree)])
  }

  /** After the mutants in `before`, one more. A mutant whose file is not in the tree stops
      everything: its text is read before it is applied. */
  function Next(py: Pytest, clock: nat, tree: Tree, before: Play, m: Mutant): Play {
    match before
    case Crashed(_) => before
    case Played(vs, made) =>
      if m.file !in tree then Crashed(made)
      else
        var t := TurnOf(py, clock + |made|, tree, m);
        Played(vs + [t.verdict], made + t.made)
  }

  /** The mutants in turn, each against the original tree; `clock` test runs came before. */
  function PlayAll(py: Pytest, clock: nat, tree: Tree, ms: seq<Mutant>): (r: Play)
    ensures r.Played? ==> |r.verdicts| == |ms|
  {
    if ms == [] then Played([], [])
    else Next(py, clock, tree, PlayAll(py, clock, tree, ms[..|ms| - 1]), ms[|ms| - 1])
  }

  datatype Exit = Code(n: int) | Crash

  function Suites(ms: seq<Mutant>): set<string> {
    set k, t | 0 <= k < |ms| && t in ms[k].tests :: t
  }

  function Baseline(tree: Tree, ms: seq<Mutant>): Call {
    Call(tree, Union(Suites(ms)), exists k | 0 <= k < |ms| :: ms[k].needsPg)
  }

  predicate AllKilled(vs: seq<Verdict>) {
    forall k | 0 <= k < |vs| :: vs[k].Killed?
  }

  function Trace(base: Call, p: Play): seq<Call> {
    match p
    case Crashed(made) => [base] + made
    case Played(_, made) => [base] + made + [base]
  }

  function Finish(py: Pytest, base: Call, p: Play): Exit {
    match p
    case Crashed(_) => Crash
    case Played(vs, made) =>
      if AllKilled(vs) && py(1 + |made|, base).exit == 0 then Code(0) else Code(1)
  }

  predicate Red(r: Report) {
    r.exit != 0 || r.ran == 0
  }

  /** The calls a battery makes, and how it exits. */
  function Calls(py: Pytest, tree: Tree, ms: seq<Mutant>): seq<Call> {
    var base := Baseline(tree, ms);
    if ms == [] then []
    else if Red(py(0, base)) then [base]
    else Trace(base, PlayAll(py, 1, tree, ms))
  }

  function ExitOf(py: Pytest, tree: Tree, ms: seq<Mutant>): Exit {
    var base := Baseline(tree, ms);
    if ms == [] || Red(py(0, base)) then Code(1)
    else Finish(py, base, PlayAll(py, 1, tree, ms))
  }

  // ---------------------------------------------------------------------------------
  // The battery itself
  // ---------------------------------------------------------------------------------

  class Clone {
    var files: Tree
    const py: Pytest
    var clock: nat
    ghost var calls: seq<Call>

    constructor (repo: Tree, py: Pytest)
      ensures files == repo && this.py == py && clock == 0 && calls == []
    {
      files := repo;
      this.py := py;
      clock := 0;
      calls := [];
    }

    method RunPytest(targets: Targets, needsPg: bool) returns (r: Report)
      modifies this`clock, this`calls
      ensures r == py(old(clock), Call(files, targets, needsPg))
      ensures clock == old(clock) + 1 && calls == old(calls) + [Call(files, targets, needsPg)]
    {
      r := py(clock, Call(files, targets, needsPg));
      calls := calls + [Call(files, targets, needsPg)];
      clock := clock + 1;
    }

    /** Writes the mutated text over the mutant's file, or refuses and writes nothing. */
    method Apply(m: Mutant) returns (refusal: Option<Refusal>)
      modifies this`files
      ensures m.file !in old(files) ==> refusal == Some(FileAbsent) && files == old(files)
      ensures m.file in old(files) ==>
                match Mutate(m, old(files)[m.file])
                case Mutated(text) => refusal == None && files == old(files)[m.file := text]
                case Refused(why) => refusal == Some(why) && files == old(files)
      ensures refusal.None? ==>
                && m.file in old(files) && m.file in files && files[m.file] != old(files)[m.file]
                && exists start: nat, end: nat :: OneEdit(m, old(files)[m.file], files[m.file], start, end)
    {
      if m.file in files && Mutate(m, files[m.file]).Mutated? {
        MutationIsOneEdit(m, files[m.file]);
      }
      if m.file !in files {
        return Some(FileAbsent);
      }
      var source := files[m.file];
      if m.find.None? {
        return Some(NoFindAnchor);
      }
      var found := Index(source, m.find.value, 0);
      if found.None? {
        return Some(AnchorNotMatched);
      }
      var start := found.value;
      var mutated;
      if m.until.Some? {
        var stop := Index(source, m.until.value, start);
        if stop.None? {
          return Some(UntilNotMatched);
        }
        mutated := source[..start] + source[stop.value..];
        assert mutated == Spliced(source, start, stop.value, "");
      } else {
        mutated := source[..start] + Text(m.replace) + source[start + |m.find.value|..];
      }
      if mutated == source {
        return Some(NoOp);
      }
      files := files[m.file := mutated];
      return None;
    }

    /** One mutant: mutate, run, restore what was displaced, judge. */
    method Try(m: Mutant, killed0: seq<string>, survived0: seq<string>)
      returns (crashed: bool, killed: seq<string>, survived: seq<string>)
      modifies this
      ensures files == old(files)
      ensures crashed <==> m.file !in files
      ensures crashed ==> calls == old(calls)
      ensures !crashed ==>
                var t := TurnOf(py, old(clock), files, m);
                && clock == old(clock) + |t.made| && calls == old(calls) + t.made
                && killed == (if t.verdict.Killed? then killed0 + [m.id] else killed0)
                && survived == (if t.verdict.Killed? then survived0 else survived0 + [m.id])
    {
      crashed, killed, survived := false, killed0, survived0;
      if m.file !in files {
        return true, killed, survived;
      }
      var pristine := files[m.file];
      var refusal := Apply(m);
      if refusal.Some? {
        survived := survived + [m.id];
        return;
      }
      var r := RunPytest(Of(m.tests), m.needsPg);
      files := files[m.file := pristine];
      assert files == old(files);
      if r.ran == 0 {
        survived := survived + [m.id];
      } else if r.exit != 0 {
        killed := killed + [m.id];
      } else {
        survived := survived + [m.id];
      }
    }

    /** One iteration against the specification: from what the mutants before `k` brought. */
    method Round(ms: seq<Mutant>, k: nat, killed0: seq<string>, survived0: seq<string>,
                 ghost start: nat, ghost earlier: seq<Call>, ghost before: Play, ghost after: Play)
      returns (crashed: bool, killed: seq<string>, survived: seq<string>)
      requires k < |ms| && before.Played? && |before.verdicts| == k && clock == start + |before.made|
      requires after == Next(py, start, files, before, ms[k])
      requires Sorted(ms[..k], before.verdicts, killed0, survived0)
      requires calls == earlier + before.made
      modifies this
      ensures files == old(files) && crashed == after.Crashed?
      ensures calls == earlier + after.made
      ensures !crashed ==> clock == start + |after.made| && Sorted(ms[..k + 1], after.verdicts, killed, survived)
    {
      Advance(py, clock, files, before, after, start, earlier, ms[k]);
      crashed, killed, survived := Try(ms[k], killed0, survived0);
      if !crashed {
        SortedStep(ms, after.verdicts, k, killed0, survived0);
      }
    }

    /** The mutants in turn, sorted into killed and survived. */
    method TryAll(ms: seq<Mutant>) returns (crashed: bool, killed: seq<string>, survived: seq<string>)
      modifies this
      ensures files == old(files)
      ensures var p := PlayAll(py, old(clock), files, ms);
              && crashed == p.Crashed? && calls == old(calls) + p.made
              && (!crashed ==> clock == old(clock) + |p.made| && Sorted(ms, p.verdicts, killed, survived))
    {
      crashed, killed, survived := false, [], [];
      ghost var tree, start := files, clock;
      ghost var ps := Unrolled(py, start, tree, ms);
      for k := 0 to |ms|
        invariant ps[k].Played? && files == tree
        invariant calls == old(calls) + ps[k].made && clock == start + |ps[k].made|
        invariant Sorted(ms[..k], ps[k].verdicts, killed, survived)
      {
        crashed, killed, survived := Round(ms, k, killed, survived, start, old(calls), ps[k], ps[k + 1]);
        if crashed {
          return;
        }
      }
      assert ms[..|ms|] == ms;
    }

    /** The whole battery. However it ends, the tree is the one it started from. */
    method Battery(ms: seq<Mutant>) returns (exit: Exit)
      requires clock == 0 && calls == []
      modifies this
      ensures files == old(files)
      ensures exit == ExitOf(py, files, ms)
      ensures calls == Calls(py, files, ms)
    {
      if ms == [] {
        return Code(1);
      }
      var targets := Union(Suites(ms));
      var anyPg := exists k | 0 <= k < |ms| :: ms[k].needsPg;
      ghost var base := Baseline(files, ms);
      var baseline := RunPytest(targets, anyPg);
      assert calls == [base] && baseline == py(0, base);
      if baseline.exit != 0 || baseline.ran == 0 {
        return Code(1);
      }
      ghost var p := PlayAll(py, 1, files, ms);
      var crashed, killed, survived := TryAll(ms);
      if crashed {
        return Crash;
      }
      SurvivedIsEmpty(ms, p.verdicts);
      var after := RunPytest(targets, anyPg);
      assert calls == Trace(base, p);
      return if survived == [] && after.exit == 0 then Code(0) else Code(1);
    }
  }

  /** The battery after each number of mutants. */
  lemma {:induction false} Unrolled(py: Pytest, clock: nat, tree: Tree, ms: seq<Mutant>) returns (ps: seq<Play>)
    ensures |ps| == |ms| + 1 && ps[0] == Played([], []) && ps[|ms|] == PlayAll(py, clock, tree, ms)
    ensures forall k | 0 <= k < |ms| :: ps[k + 1] == Next(py, clock, tree, ps[k], ms[k])
    ensures forall k | 0 <= k <= |ms| :: ps[k].Crashed? ==> ps[|ms|] == ps[k]
    ensures forall k | 0 <= k <= |ms| :: ps[k].Played? ==> |ps[k].verdicts| == k
  {
    if ms == [] {
      ps := [Played([], [])];
    } else {
      var last := |ms| - 1;
      var before := Unrolled(py, clock, tree, ms[..last]);
      ps := before + [PlayAll(py, clock, tree, ms)];
    }
  }

  /** The next mutant's turn, read off the specification. */
  lemma Advance(py: Pytest, clock: nat, tree: Tree, before: Play, after: Play, start: nat, earlier: seq<Call>, m: Mutant)
    requires before.Played? && clock == start + |before.made| && after == Next(py, start, tree, before, m)
    ensures m.file !in tree ==> after == Crashed(before.made)
    ensures m.file in tree ==>
              var t := TurnOf(py, clock, tree, m);
              && after.Played? && |after.verdicts| == |before.verdicts| + 1
              && after.verdicts[..|before.verdicts|] == before.verdicts && after.verdicts[|before.verdicts|] == t.verdict
              && |after.made| == |before.made| + |t.made| && earlier + before.made + t.made == earlier + after.made
  {
    if m.file in tree {
      var t := TurnOf(py, clock, tree, m);
      assert earlier + before.made + t.made == earlier + (before.made + t.made);
    }
  }

  function KilledIds(ms: seq<Mutant>, vs: seq<Verdict>): seq<string>
    requires |ms| == |vs|
  {
    if ms == [] then []
    else KilledIds(ms[..|ms| - 1], vs[..|ms| - 1]) + (if vs[|ms| - 1].Killed? then [ms[|ms| - 1].id] else [])
  }

  function SurvivedIds(ms: seq<Mutant>, vs: seq<Verdict>): seq<string>
    requires |ms| == |vs|
  {
    if ms == [] then []
    else SurvivedIds(ms[..|ms| - 1], vs[..|ms| - 1]) + (if vs[|ms| - 1].Killed? then [] else [ms[|ms| - 1].id])
  }

  /** The two lists a battery keeps. */
  predicate Sorted(ms: seq<Mutant>, vs: seq<Verdict>, killed: seq<string>, survived: seq<string>) {
    |ms| == |vs| && killed == KilledIds(ms, vs) && survived == SurvivedIds(ms, vs)
  }

  lemma SortedStep(ms: seq<Mutant>, vs: seq<Verdict>, k: nat, killed: seq<string>, survived: seq<string>)
    requires k < |ms| && |vs| == k + 1 && Sorted(ms[..k], vs[..k], killed, survived)
    ensures Sorted(ms[..k + 1], vs,
                   if vs[k].Killed? then killed + [ms[k].id] else killed,
                   if vs[k].Killed? then survived else survived + [ms[k].id])
  {
    assert ms[..k + 1][..k] == ms[..k];
  }

  lemma {:induction false} SurvivedIsEmpty(ms: seq<Mutant>, vs: seq<Verdict>)
    requires |ms| == |vs|
    ensures SurvivedIds(ms, vs) == [] <==> AllKilled(vs)
  {
    if ms != [] {
      SurvivedIsEmpty(ms[..|ms| - 1], vs[..|ms| - 1]);
      assert forall k | 0 <= k < |ms| - 1 :: vs[..|ms| - 1][k] == vs[k];
    }
  }

  // ---------------------------------------------------------------------------------
  // What a battery proves
  // ---------------------------------------------------------------------------------

  predicate Applies(tree: Tree, m: Mutant) {
    m.file in tree && Mutate(m, tree[m.file]).Mutated?
  }

  function Weight(tree: Tree, m: Mutant): nat {
    if Applies(tree, m) then 1 else 0
  }

  /** A mutant is killed exactly when it was applied, its tests ran, and they failed. */
  predicate KilledBy(py: Pytest, clock: nat, tree: Tree, m: Mutant) {
    && Applies(tree, m)
    && py(clock, MutantCall(m, tree)).ran > 0
    && py(clock, MutantCall(m, tree)).exit != 0
  }

  /** The call made for one of the mutants: its file, and only its file, carries one real edit. */
  ghost predicate HonestCall(c: Call, tree: Tree, m: Mutant) {
    && Applies(tree, m)
    && c.tree.Keys == tree.Keys && c.targets == Of(m.tests) && c.needsPg == m.needsPg
    && (forall p <- tree :: p != m.file ==> c.tree[p] == tree[p])
    && (exists start: nat, end: nat :: OneEdit(m, tree[m.file], c.tree[m.file], start, end))
    && c.tree[m.file] != tree[m.file]
  }

  lemma TurnIsHonest(py: Pytest, clock: nat, tree: Tree, m: Mutant)
    requires m.file in tree
    ensures |TurnOf(py, clock, tree, m).made| == Weight(tree, m)
    ensures Applies(tree, m) ==> HonestCall(TurnOf(py, clock, tree, m).made[0], tree, m)
    ensures TurnOf(py, clock, tree, m).verdict.Killed? <==> KilledBy(py, clock, tree, m)
    ensures TurnOf(py, clock, tree, m).verdict != Survived(NotApplied(FileAbsent))
  {
    if Applies(tree, m) {
      MutationIsOneEdit(m, tree[m.file]);
    }
  }

  ghost predicate HonestForSome(c: Call, tree: Tree, ms: seq<Mutant>) {
    exists k: nat | k < |ms| :: HonestCall(c, tree, ms[k])
  }

  lemma {:induction false} PlayedCallsAreHonest(py: Pytest, clock: nat, tree: Tree, ms: seq<Mutant>, j: nat)
    requires j < |PlayAll(py, clock, tree, ms).made|
    ensures HonestForSome(PlayAll(py, clock, tree, ms).made[j], tree, ms)
  {
    var last := |ms| - 1;
    var before := PlayAll(py, clock, tree, ms[..last]);
    if j < |before.made| {
      PlayedCallsAreHonest(py, clock, tree, ms[..last], j);
      var k: nat :| k < last && HonestCall(before.made[j], tree, ms[..last][k]);
      assert HonestCall(PlayAll(py, clock, tree, ms).made[j], tree, ms[k]);
    } else {
      TurnIsHonest(py, clock + |before.made|, tree, ms[last]);
    }
  }

  lemma TraceAt(base: Call, p: Play, j: nat)
    requires j < |Trace(base, p)|
    ensures Trace(base, p)[j] == base || (0 < j <= |p.made| && Trace(base, p)[j] == p.made[j - 1])
  {
  }

  /** The original tree, with every suite that some mutant names, and a database if some mutant needs one. */
  ghost predicate Unmutated(c: Call, tree: Tree, ms: seq<Mutant>) {
    && c.tree == tree && c.targets.Union?
    && (forall t :: t in c.targets.suites <==> exists m <- ms :: t in m.tests)
    && (c.needsPg <==> exists m <- ms :: m.needsPg)
  }

  lemma BaselineIsUnmutated(tree: Tree, ms: seq<Mutant>)
    ensures Unmutated(Baseline(tree, ms), tree, ms)
  {
    forall t ensures t in Suites(ms) <==> exists m <- ms :: t in m.tests {
      if t in Suites(ms) {
        var k :| 0 <= k < |ms| && t in ms[k].tests;
        assert ms[k] in ms;
      }
    }
    if k :| 0 <= k < |ms| && ms[k].needsPg {
      assert ms[k] in ms;
    }
  }

  /** In any battery, every test run sees either the original tree, with the union of the suites, or
      the original tree with exactly one mutant applied and that mutant's own tests. */
  lemma EveryCallIsHonest(py: Pytest, tree: Tree, ms: seq<Mutant>, j: nat)
    requires j < |Calls(py, tree, ms)|
    ensures Unmutated(Calls(py, tree, ms)[j], tree, ms) || HonestForSome(Calls(py, tree, ms)[j], tree, ms)
  {
    BaselineIsUnmutated(tree, ms);
    if ms != [] && !Red(py(0, Baseline(tree, ms))) {
      TraceAt(Baseline(tree, ms), PlayAll(py, 1, tree, ms), j);
      if Calls(py, tree, ms)[j] != Baseline(tree, ms) {
        PlayedCallsAreHonest(py, 1, tree, ms, j - 1);
      }
    }
  }

  predicate AllPresent(tree: Tree, ms: seq<Mutant>) {
    forall k | 0 <= k < |ms| :: ms[k].file in tree
  }

  /** The verdict that no mutant gets. */
  predicate NeverAbsent(vs: seq<Verdict>) {
    forall k | 0 <= k < |vs| :: vs[k] != Survived(NotApplied(FileAbsent))
  }

  lemma NextCrashesExactly(py: Pytest, clock: nat, tree: Tree, p: Play, m: Mutant)
    requires p.Played? && NeverAbsent(p.verdicts)
    ensures Next(py, clock, tree, p, m).Played? <==> m.file in tree
    ensures Next(py, clock, tree, p, m).Played? ==> NeverAbsent(Next(py, clock, tree, p, m).verdicts)
  {
    if m.file in tree {
      TurnIsHonest(py, clock + |p.made|, tree, m);
    }
  }

  lemma AllPresentUnrolls(tree: Tree, ms: seq<Mutant>)
    requires ms != []
    ensures AllPresent(tree, ms) <==> AllPresent(tree, ms[..|ms| - 1]) && ms[|ms| - 1].file in tree
  {
    assert forall k | 0 <= k < |ms| - 1 :: ms[k] == ms[..|ms| - 1][k];
  }

  /** A battery that gets as far as its mutants crashes exactly when one names an absent file, so
      the refusal Apply keeps for that case is never reported. */
  lemma {:induction false} CrashesExactly(py: Pytest, clock: nat, tree: Tree, ms: seq<Mutant>)
    ensures PlayAll(py, clock, tree, ms).Played? <==> AllPresent(tree, ms)
    ensures PlayAll(py, clock, tree, ms).Played? ==> NeverAbsent(PlayAll(py, clock, tree, ms).verdicts)
    decreases |ms|
  {
    if ms != [] {
      var before := PlayAll(py, clock, tree, ms[..|ms| - 1]);
      CrashesExactly(py, clock, tree, ms[..|ms| - 1]);
      AllPresentUnrolls(tree, ms);
      if before.Played? {
        NextCrashesExactly(py, clock, tree, before, ms[|ms| - 1]);
      }
    }
  }

  /** So the whole battery crashes exactly when there are mutants, the baseline is green, and one of
      the mutants names a file that is not there. */
  lemma BatteryCrashesExactly(py: Pytest, tree: Tree, ms: seq<Mutant>)
    ensures ExitOf(py, tree, ms) == Crash <==> ms != [] && !Red(py(0, Baseline(tree, ms))) && !AllPresent(tree, ms)
  {
    CrashesExactly(py, 1, tree, ms);
  }

  const GREEN: Pytest := (n, call) => Report(0, 1)

  /** One mutant of a file that was renamed, and suites that pass. */
  lemma RenamedFileCrashes()
    ensures ExitOf(GREEN, map["risk/var_service.py" := "x = 1"],
                   [Mutant("M1", "risk/var.py", ["tests/test_var.py"], Some("1"), Some("2"), None, false)]) == Crash
  {
    var tree: Tree := map["risk/var_service.py" := "x = 1"];
    var ms := [Mutant("M1", "risk/var.py", ["tests/test_var.py"], Some("1"), Some("2"), None, false)];
    assert ms[0].file == "risk/var.py" && "risk/var.py" != "risk/var_service.py";
    BatteryCrashesExactly(GREEN, tree, ms);
  }

  /** How many of the mutants are applied, and so how many test runs are made for them. */
  function Applied(tree: Tree, ms: seq<Mutant>): nat {
    if ms == [] then 0 else Applied(tree, ms[..|ms| - 1]) + Weight(tree, ms[|ms| - 1])
  }

  lemma {:induction false} MadeCount(py: Pytest, clock: nat, tree: Tree, ms: seq<Mutant>)
    requires PlayAll(py, clock, tree, ms).Played?
    ensures |PlayAll(py, clock, tree, ms).made| == Applied(tree, ms)
  {
    if ms != [] {
      var before := PlayAll(py, clock, tree, ms[..|ms| - 1]);
      TurnIsHonest(py, clock + |before.made|, tree, ms[|ms| - 1]);
      MadeCount(py, clock, tree, ms[..|ms| - 1]);
    }
  }

  /** Mutant `k` is killed by its own run, which comes after those of the applied mutants before it. */
  predicate KilledAt(py: Pytest, tree: Tree, ms: seq<Mutant>, k: nat)
    requires k < |ms|
  {
    KilledBy(py, 1 + Applied(tree, ms[..k]), tree, ms[k])
  }

  lemma {:induction false} VerdictOf(py: Pytest, tree: Tree, ms: seq<Mutant>, vs: seq<Verdict>, k: nat)
    requires PlayAll(py, 1, tree, ms).Played? && vs == PlayAll(py, 1, tree, ms).verdicts && k < |ms|
    ensures vs[k].Killed? <==> KilledAt(py, tree, ms, k)
  {
    var last := |ms| - 1;
    var before := PlayAll(py, 1, tree, ms[..last]);
    assert vs[..last] == before.verdicts;
    if k == last {
      MadeCount(py, 1, tree, ms[..last]);
      TurnIsHonest(py, 1 + |before.made|, tree, ms[last]);
    } else {
      VerdictOf(py, tree, ms[..last], before.verdicts, k);
      KilledEarlier(py, tree, ms, last, k);
    }
  }

  lemma KilledEarlier(py: Pytest, tree: Tree, ms: seq<Mutant>, n: nat, k: nat)
    requires k < n <= |ms|
    ensures KilledAt(py, tree, ms[..n], k) == KilledAt(py, tree, ms, k)
  {
    assert ms[..n][..k] == ms[..k];
  }

  lemma AllKilledExactly(py: Pytest, tree: Tree, ms: seq<Mutant>, vs: seq<Verdict>)
    requires PlayAll(py, 1, tree, ms).Played? && vs == PlayAll(py, 1, tree, ms).verdicts
    ensures AllKilled(vs) <==> forall k: nat | k < |ms| :: KilledAt(py, tree, ms, k)
  {
    forall k: nat | k < |ms|
      ensures vs[k].Killed? <==> KilledAt(py, tree, ms, k)
    {
      VerdictOf(py, tree, ms, vs, k);
    }
  }

  /** Exit 0 means exactly this: there were mutants, every one names a file of the tree, the first
      baseline passed having run something, every mutant was killed, and the last baseline passed. */
  lemma ExitZeroExactly(py: Pytest, tree: Tree, ms: seq<Mutant>)
    ensures ExitOf(py, tree, ms) == Code(0) <==>
            && ms != [] && AllPresent(tree, ms)
            && py(0, Baseline(tree, ms)).exit == 0 && py(0, Baseline(tree, ms)).ran > 0
            && (forall k: nat | k < |ms| :: KilledAt(py, tree, ms, k))
            && py(1 + Applied(tree, ms), Baseline(tree, ms)).exit == 0
  {
    CrashesExactly(py, 1, tree, ms);
    if AllPresent(tree, ms) {
      MadeCount(py, 1, tree, ms);
      AllKilledExactly(py, tree, ms, PlayAll(py, 1, tree, ms).verdicts);
    }
  }

  /** Killed and survived partition the mutants, in their order. */
  lemma {:induction false} KilledAndSurvivedPartition(ms: seq<Mutant>, vs: seq<Verdict>)
    requires |ms| == |vs|
    ensures multiset(KilledIds(ms, vs)) + multiset(SurvivedIds(ms, vs)) == multiset(Ids(ms))
    ensures |KilledIds(ms, vs)| + |SurvivedIds(ms, vs)| == |ms|
    decreases |ms|
  {
    if ms != [] {
      KilledAndSurvivedPartition(ms[..|ms| - 1], vs[..|ms| - 1]);
    }
  }

  function Ids(ms: seq<Mutant>): seq<string> {
    if ms == [] then [] else Ids(ms[..|ms| - 1]) + [ms[|ms| - 1].id]
  }

  // ---------------------------------------------------------------------------------
  // The anchor check
  // ---------------------------------------------------------------------------------

  /** What the quick check asks of one mutant; `None` where the check itself crashes, for want of a
      file to read or of an anchor to look for. */
  function Anchored(tree: Tree, m: Mutant): Option<bool> {
    if m.file !in tree || m.find.None? then None
    else Some(Index(tree[m.file], m.find.value, 0).Some?)
  }

  /** The quick check: exit 0 when every anchor matches, 1 when some do not. */
  method CheckAnchors(tree: Tree, ms: seq<Mutant>) returns (exit: Exit)
    ensures exit == Crash <==> exists k | 0 <= k < |ms| :: Anchored(tree, ms[k]).None?
    ensures exit == Code(0) <==> forall k | 0 <= k < |ms| :: Anchored(tree, ms[k]) == Some(true)
    ensures exit == Crash || exit == Code(0) || exit == Code(1)
  {
    var stale := 0;
    for k := 0 to |ms|
      invariant forall i | 0 <= i < k :: Anchored(tree, ms[i]).Some?
      invariant stale == 0 <==> forall i | 0 <= i < k :: Anchored(tree, ms[i]) == Some(true)
      invariant stale >= 0
    {
      var anchored := Anchored(tree, ms[k]);
      if anchored.None? {
        return Crash;
      }
      if !anchored.value {
        stale := stale + 1;
      }
    }
    return if stale == 0 then Code(0) else Code(1);
  }

  /** What a passing anchor check is worth to the battery: it cannot crash, and no mutant is refused
      for its anchor. A mutant can still be refused for its `until`, or for changing nothing. */
  lemma AnchoredMeansMatched(py: Pytest, clock: nat, tree: Tree, ms: seq<Mutant>)
    requires forall k | 0 <= k < |ms| :: Anchored(tree, ms[k]) == Some(true)
    ensures PlayAll(py, clock, tree, ms).Played? && AllPresent(tree, ms)
    ensures forall k | 0 <= k < |ms| :: Mutate(ms[k], tree[ms[k].file]) !in {Refused(NoFindAnchor), Refused(AnchorNotMatched)}
    ensures forall k | 0 <= k < |ms| && ms[k].until.None? ::
              Mutate(ms[k], tree[ms[k].file]).Refused? <==> WritesItBack(ms[k])
  {
    forall k | 0 <= k < |ms| ensures ms[k].file in tree { assert Anchored(tree, ms[k]).Some?; }
    CrashesExactly(py, clock, tree, ms);
    forall k | 0 <= k < |ms|
      ensures Mutate(ms[k], tree[ms[k].file]) !in {Refused(NoFindAnchor), Refused(AnchorNotMatched)}
      ensures ms[k].until.None? ==> (Mutate(ms[k], tree[ms[k].file]).Refused? <==> WritesItBack(ms[k]))
    {
      assert Anchored(tree, ms[k]) == Some(true);
      NoOpExactly(ms[k], tree[ms[k].file]);
    }
  }
}
