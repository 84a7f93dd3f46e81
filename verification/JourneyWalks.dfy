/** The journey-walk gate: which journey lines a ledger credits as walked at a commit, and what its
    exit code means. The patterns, the commit graph and the diffs are given.
 */
module JourneyWalks {
  import opened Wrappers
  import opened LedgerText

  /** One walk. A key the ledger line does not have reads as the empty string. */
  datatype Entry = Entry(
    line: string, hash: string, head: string, who: string, verdict: string, reasoning: string,
    decision: string, driving: string, persona: string, at: string, route: string)

  datatype Patterns = Patterns(
    isLineId: string -> bool, isHex: string -> bool, isDate: string -> bool, hasDigit: string -> bool)

  /** The answers git gives: the commit under check, whether one commit is an ancestor of another,
      whether a directory exists at a commit, and the files under some directories that differ
      between two commits. `None` where git cannot answer. */
  datatype Git = Git(
    head: Option<string>,
    isAncestor: (string, string) -> Option<bool>,
    hasDirectory: (string, string) -> bool,
    diff: (string, string, seq<string>) -> Option<seq<string>>)

  const MODEL := "MODEL:"
  const WALKABLE := "WALKABLE"
  const NOT_WALKABLE := "NOT WALKABLE"
  const PERSONAS: set<string> :=
    {"P-CRO", "P-RM", "P-RA", "P-PM", "P-MV", "P-DS", "P-CO", "P-IA", "P-ADM", "P-BRD", "P-OPS"}
  const SOURCE_DIR_PREFIX := "apps/frontend/"
  const MIN_REASONING := 120
  const MIN_REASONING_DISTINCT_CHARS := 20
  const MIN_DECISION := 40
  const MIN_NO_SCOPE_REASON := 60
  const G5_FROM_WAVE := 20
  const G5_MIN_NONE_REASON := 60
  const G5_MIN_CLOSE_REVIEWS := 18

  // ---------------------------------------------------------------------------------
  // The ledger, row by row
  // ---------------------------------------------------------------------------------

  predicate Human(who: string, roster: set<string>) {
    !("MODEL:" <= who) && who in roster
  }

  function Characters(s: string): set<char> {
    set c | c in s
  }

  /** What a walkable verdict must carry: a sentence, and a number that drove it. */
  predicate Decided(e: Entry, re: Patterns) {
    |Strip(e.decision)| >= 40 && !Blank(e.driving) && re.hasDigit(Strip(e.driving))
  }

  predicate WalkedAs(e: Entry) {
    && e.persona in {"P-CRO", "P-RM", "P-RA", "P-PM", "P-MV", "P-DS", "P-CO", "P-IA", "P-ADM", "P-BRD", "P-OPS"}
    && ("J-CRO" <= e.line ==> e.persona == "P-CRO" || e.persona == "P-RM")
    && ("J-PM" <= e.line ==> e.persona == "P-PM")
  }

  /** What is asked of a row, in figures. */
  predicate WellFormed(e: Entry, re: Patterns, roster: set<string>, lines: map<string, string>) {
    && re.isLineId(e.line) && e.line in lines
    && Human(e.who, roster)
    && (e.verdict == "WALKABLE" || e.verdict == "NOT WALKABLE")
    && re.isHex(e.head)
    && |e.reasoning| >= 120 && |set c | c in e.reasoning| >= 20
    && (e.verdict == "WALKABLE" ==> Decided(e, re))
    && WalkedAs(e)
    && re.isDate(e.at) && "/" <= Strip(e.route)
  }

  datatype Fault =
    | NotAnId | NoSuchLine | Duplicate | Model | NotRostered | BadVerdict | NotACommit | ShortReasoning
    | Filler | NoDecision | ShortDecision | NoNumber | BadPersona | NotThatPersona | NotADate | NoRoute

  function PersonaFaults(e: Entry): (r: seq<Fault>)
    ensures r == [] <==> WalkedAs(e)
  {
    if e.persona !in PERSONAS then [BadPersona]
    else if "J-CRO" <= e.line && e.persona != "P-CRO" && e.persona != "P-RM" then [NotThatPersona]
    else if "J-PM" <= e.line && e.persona != "P-PM" then [NotThatPersona]
    else []
  }

  function DecisionFaults(e: Entry, re: Patterns): (r: seq<Fault>)
    ensures r == [] <==> (e.verdict == WALKABLE ==> Decided(e, re))
  {
    StripIsEmptyExactly(e.driving);
    var decision, driving := Strip(e.decision), Strip(e.driving);
    if e.verdict != WALKABLE then []
    else if decision == "" || driving == "" then [NoDecision]
    else (if |decision| < MIN_DECISION then [ShortDecision] else [])
         + (if !re.hasDigit(driving) then [NoNumber] else [])
  }

  function LineFaults(e: Entry, re: Patterns, lines: map<string, string>): (r: seq<Fault>)
    ensures r == [] <==> re.isLineId(e.line) && e.line in lines
  {
    if !re.isLineId(e.line) then [NotAnId] else if e.line !in lines then [NoSuchLine] else []
  }

  function WalkerFaults(e: Entry, re: Patterns, roster: set<string>): (r: seq<Fault>)
    ensures r == [] <==> Human(e.who, roster) && (e.verdict == WALKABLE || e.verdict == NOT_WALKABLE) && re.isHex(e.head)
  {
    (if MODEL <= e.who then [Model] else if e.who !in roster then [NotRostered] else [])
    + (if e.verdict != WALKABLE && e.verdict != NOT_WALKABLE then [BadVerdict] else [])
    + (if !re.isHex(e.head) then [NotACommit] else [])
  }

  function ReasoningFaults(e: Entry): (r: seq<Fault>)
    ensures r == [] <==> |e.reasoning| >= 120 && |set c | c in e.reasoning| >= 20
  {
    if |e.reasoning| < MIN_REASONING then [ShortReasoning]
    else if |Characters(e.reasoning)| < MIN_REASONING_DISTINCT_CHARS then [Filler] else []
  }

  function TraceFaults(e: Entry, re: Patterns): (r: seq<Fault>)
    ensures r == [] <==> re.isDate(e.at) && "/" <= Strip(e.route)
  {
    (if !re.isDate(e.at) then [NotADate] else []) + (if !("/" <= Strip(e.route)) then [NoRoute] else [])
  }

  /** Everything the gate asks of a row after whether it records its walk again. */
  function RestFaults(e: Entry, re: Patterns, roster: set<string>): (r: seq<Fault>) {
    WalkerFaults(e, re, roster) + ReasoningFaults(e) + DecisionFaults(e, re) + PersonaFaults(e) + TraceFaults(e, re)
  }

  type Key = (string, string, string)

  function KeyOf(e: Entry): Key {
    (e.line, e.hash, e.head)
  }

  function KeysOf(es: seq<Entry>): set<Key> {
    set i | 0 <= i < |es| :: KeyOf(es[i])
  }

  /** Every row is well formed, and no walk is recorded twice. */
  predicate Faultless(es: seq<Entry>, re: Patterns, roster: set<string>, lines: map<string, string>) {
    && (forall i | 0 <= i < |es| :: WellFormed(es[i], re, roster, lines))
    && (forall i, j | 0 <= i < j < |es| :: es[i].line != es[j].line || es[i].hash != es[j].hash || es[i].head != es[j].head)
  }

  /** The row has the fault: one case for each thing the gate can say of a row taken alone. */
  predicate Has(e: Entry, f: Fault, re: Patterns, roster: set<string>, lines: map<string, string>) {
    match f
    case NotAnId => !re.isLineId(e.line)
    case NoSuchLine => re.isLineId(e.line) && e.line !in lines
    case Duplicate => false
    case Model => MODEL <= e.who
    case NotRostered => !(MODEL <= e.who) && e.who !in roster
    case BadVerdict => e.verdict != WALKABLE && e.verdict != NOT_WALKABLE
    case NotACommit => !re.isHex(e.head)
    case ShortReasoning => |e.reasoning| < MIN_REASONING
    case Filler => |e.reasoning| >= MIN_REASONING && |Characters(e.reasoning)| < MIN_REASONING_DISTINCT_CHARS
    case NoDecision => e.verdict == WALKABLE && (Blank(e.decision) || Blank(e.driving))
    case ShortDecision =>
      e.verdict == WALKABLE && !Blank(e.decision) && !Blank(e.driving) && |Strip(e.decision)| < MIN_DECISION
    case NoNumber => e.verdict == WALKABLE && !Blank(e.decision) && !Blank(e.driving) && !re.hasDigit(Strip(e.driving))
    case BadPersona => e.persona !in PERSONAS
    case NotThatPersona => e.persona in PERSONAS && !WalkedAs(e)
    case NotADate => !re.isDate(e.at)
    case NoRoute => !("/" <= Strip(e.route))
  }

  lemma LineExactly(e: Entry, f: Fault, re: Patterns, roster: set<string>, lines: map<string, string>)
    ensures f in LineFaults(e, re, lines) <==> (f == NotAnId || f == NoSuchLine) && Has(e, f, re, roster, lines)
  {
  }

  lemma WalkerExactly(e: Entry, f: Fault, re: Patterns, roster: set<string>, lines: map<string, string>)
    ensures f in WalkerFaults(e, re, roster) <==>
            f in {Model, NotRostered, BadVerdict, NotACommit} && Has(e, f, re, roster, lines)
  {
  }

  lemma ReasoningExactly(e: Entry, f: Fault, re: Patterns, roster: set<string>, lines: map<string, string>)
    ensures f in ReasoningFaults(e) <==> (f == ShortReasoning || f == Filler) && Has(e, f, re, roster, lines)
  {
  }

  lemma DecisionExactly(e: Entry, f: Fault, re: Patterns, roster: set<string>, lines: map<string, string>)
    ensures f in DecisionFaults(e, re) <==> f in {NoDecision, ShortDecision, NoNumber} && Has(e, f, re, roster, lines)
  {
    StripIsEmptyExactly(e.decision);
    StripIsEmptyExactly(e.driving);
  }

  lemma PersonaExactly(e: Entry, f: Fault, re: Patterns, roster: set<string>, lines: map<string, string>)
    ensures f in PersonaFaults(e) <==> (f == BadPersona || f == NotThatPersona) && Has(e, f, re, roster, lines)
  {
  }

  lemma TraceExactly(e: Entry, f: Fault, re: Patterns, roster: set<string>, lines: map<string, string>)
    ensures f in TraceFaults(e, re) <==> (f == NotADate || f == NoRoute) && Has(e, f, re, roster, lines)
  {
  }

  lemma FaultsExactly(e: Entry, f: Fault, re: Patterns, roster: set<string>, lines: map<string, string>)
    ensures Has(e, f, re, roster, lines) <==> f in LineFaults(e, re, lines) || f in RestFaults(e, re, roster)
  {
    LineExactly(e, f, re, roster, lines);
    WalkerExactly(e, f, re, roster, lines);
    ReasoningExactly(e, f, re, roster, lines);
    DecisionExactly(e, f, re, roster, lines);
    PersonaExactly(e, f, re, roster, lines);
    TraceExactly(e, f, re, roster, lines);
    var a, b, c, d, t := WalkerFaults(e, re, roster), ReasoningFaults(e), DecisionFaults(e, re), PersonaFaults(e), TraceFaults(e, re);
    InAnyOfFive(f, a, b, c, d, t);
  }

  lemma InAnyOfFive<T>(x: T, a: seq<T>, b: seq<T>, c: seq<T>, d: seq<T>, t: seq<T>)
    ensures x in a + b + c + d + t <==> x in a || x in b || x in c || x in d || x in t
  {
  }

  type Finding = (nat, Fault)

  /** Row `n`, counted from one, has the fault, or records a walk that an earlier row records. A
      duplicate is asked everything else as well. */
  predicate Guilty(es: seq<Entry>, f: Finding, re: Patterns, roster: set<string>, lines: map<string, string>) {
    && 1 <= f.0 <= |es|
    && if f.1 == Duplicate then KeyOf(es[f.0 - 1]) in KeysOf(es[..f.0 - 1]) else Has(es[f.0 - 1], f.1, re, roster, lines)
  }

  /** Every fault there is, of the row that has it, and no other. */
  ghost predicate Reports(errors: seq<Finding>, es: seq<Entry>, re: Patterns, roster: set<string>, lines: map<string, string>) {
    forall f {:trigger f in errors} {:trigger Guilty(es, f, re, roster, lines)} ::
      f in errors <==> Guilty(es, f, re, roster, lines)
  }

  function About(n: nat, fs: seq<Fault>): (r: seq<Finding>)
    ensures |r| == |fs| && forall f: Finding :: f in r <==> f.0 == n && f.1 in fs
  {
    if fs == [] then [] else [(n, fs[0])] + About(n, fs[1..])
  }

  function Again(es: seq<Entry>, n: nat): seq<Finding>
    requires n < |es|
  {
    if KeyOf(es[n]) in KeysOf(es[..n]) then [(n + 1, Duplicate)] else []
  }

  lemma GuiltyStep(es: seq<Entry>, n: nat, f: Finding, re: Patterns, roster: set<string>, lines: map<string, string>)
    requires n < |es|
    ensures Guilty(es[..n + 1], f, re, roster, lines) <==>
            || Guilty(es[..n], f, re, roster, lines)
            || f in About(n + 1, LineFaults(es[n], re, lines)) || f in Again(es, n)
            || f in About(n + 1, RestFaults(es[n], re, roster))
  {
    FaultsExactly(es[n], f.1, re, roster, lines);
    if 1 <= f.0 <= n + 1 {
      assert es[..n + 1][..f.0 - 1] == es[..f.0 - 1];
      if f.0 <= n {
        assert es[..n][..f.0 - 1] == es[..f.0 - 1];
      }
    }
  }

  lemma ReportsStep(errors: seq<Finding>, es: seq<Entry>, n: nat, a: seq<Finding>, b: seq<Finding>, c: seq<Finding>,
                    re: Patterns, roster: set<string>, lines: map<string, string>)
    requires n < |es| && Reports(errors, es[..n], re, roster, lines)
    requires a == About(n + 1, LineFaults(es[n], re, lines)) && b == Again(es, n) && c == About(n + 1, RestFaults(es[n], re, roster))
    ensures Reports(errors + a + b + c, es[..n + 1], re, roster, lines)
  {
    forall f: Finding ensures f in errors + a + b + c <==> Guilty(es[..n + 1], f, re, roster, lines) {
      GuiltyStep(es, n, f, re, roster, lines);
      InAnyOfFive(f, errors, a, b, c, []);
    }
  }

  lemma RowIsClean(e: Entry, re: Patterns, roster: set<string>, lines: map<string, string>)
    ensures WellFormed(e, re, roster, lines) <==> forall f :: !Has(e, f, re, roster, lines)
  {
    if LineFaults(e, re, lines) != [] {
      FaultsExactly(e, LineFaults(e, re, lines)[0], re, roster, lines);
    }
    if RestFaults(e, re, roster) != [] {
      FaultsExactly(e, RestFaults(e, re, roster)[0], re, roster, lines);
    }
    if WellFormed(e, re, roster, lines) {
      forall f: Fault ensures !Has(e, f, re, roster, lines) { FaultsExactly(e, f, re, roster, lines); }
    }
  }

  lemma NothingToReport(errors: seq<Finding>, es: seq<Entry>, re: Patterns, roster: set<string>, lines: map<string, string>)
    requires Reports(errors, es, re, roster, lines)
    ensures errors == [] <==> Faultless(es, re, roster, lines)
  {
    if errors == [] {
      SilentIsFaultless(errors, es, re, roster, lines);
    } else {
      GuiltyIsFaulty(es, errors[0], re, roster, lines);
    }
  }

  lemma GuiltyIsFaulty(es: seq<Entry>, f: Finding, re: Patterns, roster: set<string>, lines: map<string, string>)
    requires Guilty(es, f, re, roster, lines)
    ensures !Faultless(es, re, roster, lines)
  {
    RowIsClean(es[f.0 - 1], re, roster, lines);
  }

  lemma SilentIsFaultless(errors: seq<Finding>, es: seq<Entry>, re: Patterns, roster: set<string>, lines: map<string, string>)
    requires Reports(errors, es, re, roster, lines) && errors == []
    ensures Faultless(es, re, roster, lines)
  {
    forall i, f: Fault | 0 <= i < |es| ensures !Has(es[i], f, re, roster, lines) {
      assert !Guilty(es, (i + 1, f), re, roster, lines);
    }
    forall i | 0 <= i < |es| ensures WellFormed(es[i], re, roster, lines) {
      RowIsClean(es[i], re, roster, lines);
    }
    forall j | 0 <= j < |es| ensures KeyOf(es[j]) !in KeysOf(es[..j]) {
      assert !Guilty(es, (j + 1, Duplicate), re, roster, lines);
    }
    forall i, j | 0 <= i < j < |es| ensures KeyOf(es[i]) != KeyOf(es[j]) {
      assert es[..j][i] == es[i];
    }
  }

  /** A fault is reported exactly when the row it names has it; there are none exactly when the ledger
      is faultless. */
  method ValidateEntries(es: seq<Entry>, re: Patterns, roster: set<string>, lines: map<string, string>)
    returns (errors: seq<Finding>)
    ensures errors == [] <==> Faultless(es, re, roster, lines)
    ensures Reports(errors, es, re, roster, lines)
  {
    errors := [];
    var seen: set<Key> := {};
    for n := 0 to |es|
      invariant seen == KeysOf(es[..n])
      invariant Reports(errors, es[..n], re, roster, lines)
    {
      KeysStep(es, n);
      var first, rest := About(n + 1, LineFaults(es[n], re, lines)), About(n + 1, RestFaults(es[n], re, roster));
      var again: seq<Finding> := if KeyOf(es[n]) in seen then [(n + 1, Duplicate)] else [];
      ReportsStep(errors, es, n, first, again, rest, re, roster, lines);
      seen := seen + {KeyOf(es[n])};
      errors := errors + first + again + rest;
    }
    assert es[..|es|] == es;
    NothingToReport(errors, es, re, roster, lines);
  }

  lemma KeysStep(es: seq<Entry>, n: nat)
    requires n < |es|
    ensures KeysOf(es[..n + 1]) == KeysOf(es[..n]) + {KeyOf(es[n])}
  {
  }

  // ---------------------------------------------------------------------------------
  // What one row earns its line
  // ---------------------------------------------------------------------------------

  datatype Scope = Scope(slice: string, listed: seq<string>, dirs: seq<string>, reason: string)

  predicate InScope(s: Scope, line: string) {
    line in s.listed && line != ""
  }

  function NonEmpty(ss: seq<string>): (r: seq<string>)
    ensures forall x :: x in r <==> x in ss && x != ""
  {
    if ss == [] then [] else (if ss[0] == "" then [] else [ss[0]]) + NonEmpty(ss[1..])
  }

  /** Each stays as often as it stands, and in its place. */
  lemma {:induction false} NonEmptySplits(a: seq<string>, b: seq<string>)
    ensures NonEmpty(a + b) == NonEmpty(a) + NonEmpty(b)
  {
    if a == [] {
      assert a + b == b;
    } else {
      assert (a + b)[0] == a[0] && (a + b)[1..] == a[1..] + b;
      NonEmptySplits(a[1..], b);
    }
  }

  lemma NonEmptyOfOne(x: string)
    ensures NonEmpty([x]) == if x == "" then [] else [x]
  {
    assert [x][1..] == [];
  }

  /** Nothing, the line counts as walked, or the line counts as walked and current. */
  datatype Credit = Nothing | Walked | WalkedAndCurrent

  /** The question of the stale rule; `None` where git or a missing directory forbids an answer. */
  function ChangedUnder(git: Git, head: string, build: string, dirs: seq<string>): Option<bool> {
    if exists d <- dirs :: !git.hasDirectory(head, d) then None
    else match git.diff(build, head, dirs)
      case None => None
      case Some(files) => Some(files != [])
  }

  /** What one row earns at `head`; `None` where the gate cannot trust the answer. */
  function Ask(e: Entry, re: Patterns, git: Git, head: string, roster: set<string>, lines: map<string, string>, s: Scope)
    : Option<Credit>
  {
    if e.verdict != WALKABLE || e.line !in lines || !Human(e.who, roster) || !re.isHex(e.head) then Some(Nothing)
    else match git.isAncestor(e.head, head)
      case None => None
      case Some(false) => Some(Nothing)
      case Some(true) =>
        if e.hash != lines[e.line] then Some(Walked)
        else if !InScope(s, e.line) then Some(WalkedAndCurrent)
        else match ChangedUnder(git, head, e.head, NonEmpty(s.dirs))
          case None => None
          case Some(stale) => Some(if stale then Walked else WalkedAndCurrent)
  }

  /** The directories that are named are all there at `head`, and since `build` no file under them has
      changed. */
  predicate Unchanged(git: Git, head: string, build: string, dirs: seq<string>) {
    && (forall d <- dirs :: d != "" ==> git.hasDirectory(head, d))
    && git.diff(build, head, NonEmpty(dirs)) == Some([])
  }

  /** Why an answer cannot be trusted: git does not say whether the build is an ancestor; or, for a scoped
      line walked there in its present text, a named directory is not there or git has no diff. */
  predicate Unanswered(e: Entry, re: Patterns, git: Git, head: string, roster: set<string>, lines: map<string, string>, s: Scope) {
    && e.verdict == "WALKABLE" && e.line in lines && Human(e.who, roster) && re.isHex(e.head)
    && (|| git.isAncestor(e.head, head) == None
        || (&& git.isAncestor(e.head, head) == Some(true) && e.hash == lines[e.line]
            && e.line in s.listed && e.line != ""
            && ((exists d <- s.dirs :: d != "" && !git.hasDirectory(head, d)) || git.diff(e.head, head, NonEmpty(s.dirs)) == None)))
  }

  /** A row whose walk counts: by a person on the roster, of a line that exists, on a build in the
      lineage of `head`. */
  predicate Counts(e: Entry, re: Patterns, git: Git, head: string, roster: set<string>, lines: map<string, string>) {
    && e.verdict == "WALKABLE" && e.line in lines && Human(e.who, roster)
    && re.isHex(e.head) && git.isAncestor(e.head, head) == Some(true)
  }

  /** A row that counts for the line's present text, on a screen unchanged since. */
  predicate Stands(e: Entry, re: Patterns, git: Git, head: string, roster: set<string>, lines: map<string, string>, s: Scope) {
    && Counts(e, re, git, head, roster, lines) && e.hash == lines[e.line]
    && (e.line in s.listed && e.line != "" ==> Unchanged(git, head, e.head, s.dirs))
  }

  lemma AskMeans(e: Entry, re: Patterns, git: Git, head: string, roster: set<string>, lines: map<string, string>, s: Scope)
    ensures Ask(e, re, git, head, roster, lines, s).None? <==> Unanswered(e, re, git, head, roster, lines, s)
    ensures Ask(e, re, git, head, roster, lines, s).Some? ==>
              && (Ask(e, re, git, head, roster, lines, s) != Some(Nothing) <==> Counts(e, re, git, head, roster, lines))
              && (Ask(e, re, git, head, roster, lines, s) == Some(WalkedAndCurrent) <==> Stands(e, re, git, head, roster, lines, s))
  {
  }

  // ---------------------------------------------------------------------------------
  // The close reviews
  // ---------------------------------------------------------------------------------

  /** A close review: its wave, how many coverage headings it has, the lines its table lists, whether
      it says there is no new coverage, and how long its text is beyond those words. */
  datatype Review = Review(wave: nat, headings: nat, listed: seq<string>, saysNone: bool, reasonLength: int)

  predicate NoRepeats(ss: seq<string>) {
    forall i, j | 0 <= i < j < |ss| :: ss[i] != ss[j]
  }

  predicate ClaimsHold(r: Review, walked: set<string>, lines: map<string, string>) {
    NoRepeats(r.listed) && forall line <- r.listed :: line in lines && line in walked
  }

  /** A close review of a wave that owes one reports its coverage, and every claim in it is backed. */
  predicate Accounted(r: Review, walked: set<string>, lines: map<string, string>) {
    r.wave >= 20 ==>
      && r.headings > 0
      && (r.listed == [] ==> r.saysNone && r.reasonLength >= 60)
      && ClaimsHold(r, walked, lines)
  }

  datatype CloseFault = NoSection | NoLines | NoReason | ListedTwice(line: string) | NotALine(line: string) | NotWalked(line: string)

  method CloseErrors(reviews: seq<Review>, walked: set<string>, lines: map<string, string>)
    returns (structural: bool, errors: seq<CloseFault>)
    ensures structural <==>
            |reviews| < 18 || exists r <- reviews :: r.wave >= 20 && r.headings > 1
    ensures !structural ==> (errors == [] <==> forall k | 0 <= k < |reviews| :: Accounted(reviews[k], walked, lines))
  {
    structural, errors := false, [];
    if |reviews| < G5_MIN_CLOSE_REVIEWS {
      return true, [];
    }
    for k := 0 to |reviews|
      invariant forall i | 0 <= i < k :: reviews[i].wave >= G5_FROM_WAVE ==> reviews[i].headings <= 1
      invariant errors == [] <==> forall i | 0 <= i < k :: Accounted(reviews[i], walked, lines)
    {
      var r := reviews[k];
      if r.wave >= G5_FROM_WAVE {
        if r.headings == 0 {
          errors := errors + [NoSection];
        } else if r.headings > 1 {
          assert r in reviews;
          return true, [];
        } else if r.listed == [] {
          if !r.saysNone {
            errors := errors + [NoLines];
          } else if r.reasonLength < G5_MIN_NONE_REASON {
            errors := errors + [NoReason];
          }
        } else {
          var claims := ClaimErrors(r, walked, lines);
          errors := errors + claims;
        }
      }
    }
  }

  method ClaimErrors(r: Review, walked: set<string>, lines: map<string, string>) returns (errors: seq<CloseFault>)
    ensures errors == [] <==> ClaimsHold(r, walked, lines)
  {
    errors := [];
    var seen: set<string> := {};
    for k := 0 to |r.listed|
      invariant seen == set i | 0 <= i < k :: r.listed[i]
      invariant errors == [] <==>
                && NoRepeats(r.listed[..k])
                && forall i | 0 <= i < k :: r.listed[i] in lines && r.listed[i] in walked
    {
      var line := r.listed[k];
      NoRepeatsStep(r.listed, k, seen);
      if line in seen {
        errors := errors + [ListedTwice(line)];
      }
      seen := seen + {line};
      if line !in lines {
        errors := errors + [NotALine(line)];
      } else if line !in walked {
        errors := errors + [NotWalked(line)];
      }
    }
    assert r.listed[..|r.listed|] == r.listed;
  }

  lemma NoRepeatsStep(ss: seq<string>, k: nat, seen: set<string>)
    requires k < |ss| && seen == set i | 0 <= i < k :: ss[i]
    ensures NoRepeats(ss[..k + 1]) <==> NoRepeats(ss[..k]) && ss[k] !in seen
  {
  }

  // ---------------------------------------------------------------------------------
  // The gate
  // ---------------------------------------------------------------------------------

  function StrippedDirs(s: Scope): (r: set<string>) {
    set d | d in s.dirs && !Blank(d) :: Strip(d)
  }

  /** ".." stands at `i`, between slashes or the ends. */
  predicate ClimbsAt(d: string, i: nat) {
    && i + 2 <= |d| && d[i] == '.' && d[i + 1] == '.'
    && (i == 0 || d[i - 1] == '/') && (i + 2 == |d| || d[i + 2] == '/')
  }

  predicate Climbs(d: string) {
    exists i | 0 <= i < |d| :: ClimbsAt(d, i)
  }

  predicate Watched(d: string) {
    SOURCE_DIR_PREFIX <= d && !Climbs(d)
  }

  /** A slice lists a line and a directory; every directory is under the frontend and climbs out of nothing;
      and where there is no slice there is a reason. */
  predicate Declared(s: Scope) {
    && (s.slice != "" ==> (exists line <- s.listed :: line != "") && (exists d <- s.dirs :: !Blank(d)))
    && (forall d <- s.dirs :: !Blank(d) ==> "apps/frontend/" <= Strip(d) && !Climbs(Strip(d)))
    && (s.slice == "" ==> |Strip(s.reason)| >= 60)
  }

  /** Before the two dots there is nothing or a slash, and after them too. */
  predicate Parted(d: string, a: string, b: string) {
    d == a + ".." + b && (a == "" || a[|a| - 1] == '/') && (b == "" || b[0] == '/')
  }

  lemma ClimbsExactly(d: string)
    ensures Climbs(d) <==> exists a, b :: Parted(d, a, b)
  {
    if Climbs(d) {
      var i :| 0 <= i < |d| && ClimbsAt(d, i);
      assert Parted(d, d[..i], d[i + 2..]);
    }
    if a, b :| Parted(d, a, b) {
      assert ClimbsAt(d, |a|);
    }
  }

  lemma DirectoriesExactly(s: Scope)
    ensures StrippedDirs(s) != {} <==> exists d <- s.dirs :: !Blank(d)
    ensures (forall d <- StrippedDirs(s) :: Watched(d)) <==>
            forall d <- s.dirs :: !Blank(d) ==> "apps/frontend/" <= Strip(d) && !Climbs(Strip(d))
  {
    forall d | d in s.dirs && !Blank(d) ensures Strip(d) in StrippedDirs(s) {
    }
  }

  /** The inputs as read; `None` for one that is missing or does not parse. */
  datatype Inputs = Inputs(
    lines: Option<map<string, string>>, roster: Option<set<string>>, scope: Option<Scope>,
    ledger: Option<seq<Entry>>, reviews: seq<Review>)

  predicate Readable(inputs: Inputs) {
    && inputs.lines.Some? && inputs.roster.Some? && inputs.scope.Some? && inputs.ledger.Some?
    && Declared(inputs.scope.value)
  }

  function HeadOf(git: Git, es: seq<Entry>): Option<string> {
    if es == [] then Some("") else git.head
  }

  /** Everything the gate reads, and every question it puts to git, has an answer. */
  predicate Trusted(inputs: Inputs, re: Patterns, git: Git) {
    && Readable(inputs)
    && HeadOf(git, inputs.ledger.value).Some?
    && (forall e <- inputs.ledger.value ::
          !Unanswered(e, re, git, HeadOf(git, inputs.ledger.value).value, inputs.roster.value, inputs.lines.value, inputs.scope.value))
    && |inputs.reviews| >= 18
    && (forall r <- inputs.reviews :: r.wave >= 20 ==> r.headings <= 1)
  }

  /** The lines that some row of the ledger credits as walked, and as walked and current. */
  function WalkedLines(es: seq<Entry>, re: Patterns, git: Git, head: string, roster: set<string>, lines: map<string, string>): set<string> {
    set i | 0 <= i < |es| && Counts(es[i], re, git, head, roster, lines) :: es[i].line
  }

  function CurrentLines(es: seq<Entry>, re: Patterns, git: Git, head: string, roster: set<string>, lines: map<string, string>, s: Scope): set<string> {
    set i | 0 <= i < |es| && Stands(es[i], re, git, head, roster, lines, s) :: es[i].line
  }

  /** What a pass means. */
  predicate Clean(inputs: Inputs, re: Patterns, git: Git)
    requires Trusted(inputs, re, git)
  {
    var es, roster, lines, s := inputs.ledger.value, inputs.roster.value, inputs.lines.value, inputs.scope.value;
    var head := HeadOf(git, es).value;
    && Faultless(es, re, roster, lines)
    && (forall line <- s.listed :: line != "" ==> line in lines && line in CurrentLines(es, re, git, head, roster, lines, s))
    && (forall k | 0 <= k < |inputs.reviews| ::
          Accounted(inputs.reviews[k], WalkedLines(es, re, git, head, roster, lines), lines))
  }

  datatype Block = NotAJourneyLine(line: string) | NobodyWalked(line: string) | LapsedOrStale(line: string)

  method CreditLines(es: seq<Entry>, re: Patterns, git: Git, head: string, roster: set<string>, lines: map<string, string>, s: Scope)
    returns (structural: bool, walked: set<string>, current: set<string>)
    ensures structural <==> exists k | 0 <= k < |es| :: Ask(es[k], re, git, head, roster, lines, s).None?
    ensures !structural ==> walked == WalkedLines(es, re, git, head, roster, lines)
    ensures !structural ==> current == CurrentLines(es, re, git, head, roster, lines, s)
  {
    structural, walked, current := false, {}, {};
    for k := 0 to |es|
      invariant forall i | 0 <= i < k :: Ask(es[i], re, git, head, roster, lines, s).Some?
      invariant walked == WalkedLines(es[..k], re, git, head, roster, lines)
      invariant current == CurrentLines(es[..k], re, git, head, roster, lines, s)
    {
      var e := es[k];
      CreditStep(es, k, re, git, head, roster, lines, s);
      if e.verdict != WALKABLE || e.line !in lines {
        continue;
      }
      if MODEL <= e.who || e.who !in roster {
        continue;
      }
      if !re.isHex(e.head) {
        continue;
      }
      var ancestor := git.isAncestor(e.head, head);
      if ancestor.None? {
        return true, walked, current;
      }
      if !ancestor.value {
        continue;
      }
      walked := walked + {e.line};
      if e.hash != lines[e.line] {
        continue;
      }
      if InScope(s, e.line) {
        var stale := ChangedUnder(git, head, e.head, NonEmpty(s.dirs));
        if stale.None? {
          return true, walked, current;
        }
        if stale.value {
          continue;
        }
      }
      current := current + {e.line};
    }
    assert es[..|es|] == es;
  }

  lemma CreditStep(es: seq<Entry>, k: nat, re: Patterns, git: Git, head: string, roster: set<string>, lines: map<string, string>, s: Scope)
    requires k < |es|
    ensures WalkedLines(es[..k + 1], re, git, head, roster, lines) ==
            WalkedLines(es[..k], re, git, head, roster, lines)
            + (if Counts(es[k], re, git, head, roster, lines) then {es[k].line} else {})
    ensures CurrentLines(es[..k + 1], re, git, head, roster, lines, s) ==
            CurrentLines(es[..k], re, git, head, roster, lines, s)
            + (if Stands(es[k], re, git, head, roster, lines, s) then {es[k].line} else {})
  {
  }

  method CheckScopeDeclaration(s: Scope) returns (structural: bool)
    ensures structural <==> !Declared(s)
  {
    var scope := NonEmpty(s.listed);
    assert scope != [] <==> exists line <- s.listed :: line != "" by {
      if scope != [] {
        assert scope[0] in scope;
      }
    }
    DirectoriesExactly(s);
    var dirs := StrippedDirs(s);
    return (s.slice != "" && scope == []) || (s.slice != "" && dirs == {})
           || (exists d <- dirs :: !Watched(d))
           || (s.slice == "" && |Strip(s.reason)| < MIN_NO_SCOPE_REASON);
  }

  method ListBlocking(listed: seq<string>, lines: map<string, string>, walked: set<string>, current: set<string>)
    returns (blocking: seq<Block>)
    requires current <= walked
    ensures blocking == [] <==> forall line <- listed :: line != "" ==> line in lines && line in current
    ensures forall line :: NobodyWalked(line) in blocking ==> line in lines && line !in walked
    ensures forall line :: LapsedOrStale(line) in blocking ==> line in lines && line in walked && line !in current
  {
    blocking := [];
    for k := 0 to |listed|
      invariant blocking == [] <==> forall i | 0 <= i < k :: listed[i] != "" ==> listed[i] in lines && listed[i] in current
      invariant forall line :: NobodyWalked(line) in blocking ==> line in lines && line !in walked
      invariant forall line :: LapsedOrStale(line) in blocking ==> line in lines && line in walked && line !in current
    {
      var line := listed[k];
      if line != "" {
        if line !in lines {
          blocking := blocking + [NotAJourneyLine(line)];
        } else if line !in walked {
          blocking := blocking + [NobodyWalked(line)];
        } else if line !in current {
          blocking := blocking + [LapsedOrStale(line)];
        }
      }
    }
  }

  /** Exit 2 exactly when something could not be read or answered, exit 0 exactly on a clean ledger. */
  method Gate(inputs: Inputs, re: Patterns, git: Git) returns (exit: int)
    ensures exit == 0 || exit == 1 || exit == 2
    ensures exit == 2 <==> !Trusted(inputs, re, git)
    ensures exit == 0 <==> Trusted(inputs, re, git) && Clean(inputs, re, git)
  {
    if inputs.lines.None? || inputs.roster.None? || inputs.scope.None? {
      return 2;
    }
    var refused := CheckScopeDeclaration(inputs.scope.value);
    if refused || inputs.ledger.None? {
      return 2;
    }
    var lines, roster, s, es := inputs.lines.value, inputs.roster.value, inputs.scope.value, inputs.ledger.value;
    var errors := ValidateEntries(es, re, roster, lines);
    if es != [] && git.head.None? {
      return 2;
    }
    var head := HeadOf(git, es).value;
    var structural, walked, current := CreditLines(es, re, git, head, roster, lines, s);
    if structural {
      ghost var k :| 0 <= k < |es| && Ask(es[k], re, git, head, roster, lines, s).None?;
      AskMeans(es[k], re, git, head, roster, lines, s);
      assert es[k] in inputs.ledger.value;
      return 2;
    }
    CurrentIsWalked(es, re, git, head, roster, lines, s);
    var blocking := ListBlocking(s.listed, lines, walked, current);
    var blind, closeErrors := CloseErrors(inputs.reviews, walked, lines);
    if blind {
      return 2;
    }
    assert Trusted(inputs, re, git);
    return if errors == [] && closeErrors == [] && blocking == [] then 0 else 1;
  }

  // ---------------------------------------------------------------------------------
  // What the gate's answer is worth
  // ---------------------------------------------------------------------------------

  lemma CurrentIsWalked(es: seq<Entry>, re: Patterns, git: Git, head: string, roster: set<string>, lines: map<string, string>, s: Scope)
    ensures CurrentLines(es, re, git, head, roster, lines, s) <= WalkedLines(es, re, git, head, roster, lines)
  {
  }

  /** The evidence a pass rests on for a line: a well-formed row, by a person on the roster who found
      it walkable, of the line's present text, on a build the commit descends from, since which no
      file under the declared directories, all of them there, has changed. */
  predicate Evidence(e: Entry, line: string, re: Patterns, git: Git, head: string, roster: set<string>, lines: map<string, string>, s: Scope) {
    && WellFormed(e, re, roster, lines) && Human(e.who, roster)
    && e.line == line && e.verdict == WALKABLE && e.hash == lines[line]
    && git.isAncestor(e.head, head) == Some(true)
    && Unchanged(git, head, e.head, s.dirs)
  }

  /** A pass is exactly: a faultless ledger, evidence for every scoped line, and close reviews whose
      every claim is backed. */
  lemma PassExactly(inputs: Inputs, re: Patterns, git: Git, head: string)
    requires Trusted(inputs, re, git) && head == HeadOf(git, inputs.ledger.value).value
    ensures var es, roster, lines, s := inputs.ledger.value, inputs.roster.value, inputs.lines.value, inputs.scope.value;
            Clean(inputs, re, git) <==>
            && Faultless(es, re, roster, lines)
            && (forall line <- s.listed :: line != "" ==> HasEvidence(es, line, re, git, head, roster, lines, s))
            && (forall k | 0 <= k < |inputs.reviews| ::
                  Accounted(inputs.reviews[k], WalkedLines(es, re, git, head, roster, lines), lines))
  {
    var es, roster, lines, s := inputs.ledger.value, inputs.roster.value, inputs.lines.value, inputs.scope.value;
    if Faultless(es, re, roster, lines) {
      forall line | line in s.listed && line != ""
        ensures line in lines && line in CurrentLines(es, re, git, head, roster, lines, s) <==>
                HasEvidence(es, line, re, git, head, roster, lines, s)
      {
        EvidenceExactly(es, line, re, git, head, roster, lines, s);
      }
    }
  }

  predicate HasEvidence(es: seq<Entry>, line: string, re: Patterns, git: Git, head: string, roster: set<string>, lines: map<string, string>, s: Scope) {
    exists i | 0 <= i < |es| :: Evidence(es[i], line, re, git, head, roster, lines, s)
  }

  lemma EvidenceExactly(es: seq<Entry>, line: string, re: Patterns, git: Git, head: string, roster: set<string>, lines: map<string, string>, s: Scope)
    requires Faultless(es, re, roster, lines) && InScope(s, line)
    ensures line in CurrentLines(es, re, git, head, roster, lines, s) <==> HasEvidence(es, line, re, git, head, roster, lines, s)
  {
  }

  /** Being an ancestor is transitive. */
  ghost predicate Lineage(git: Git) {
    forall a, b, c ::
      git.isAncestor(a, b) == Some(true) && git.isAncestor(b, c) == Some(true) ==> git.isAncestor(a, c) == Some(true)
  }

  /** Once a walk counts at a commit it counts at every descendant, whatever the ledger has gained and
      however the line has been reworded, for as long as the line and the walker stay listed. */
  lemma WalkedStays(es: seq<Entry>, later: seq<Entry>, i: nat, re: Patterns, git: Git, head: string, descendant: string,
                    roster: set<string>, roster1: set<string>, lines: map<string, string>, lines1: map<string, string>)
    requires Lineage(git) && git.isAncestor(head, descendant) == Some(true)
    requires es <= later && i < |es| && Counts(es[i], re, git, head, roster, lines)
    requires es[i].line in lines1 && es[i].who in roster1
    ensures es[i].line in WalkedLines(later, re, git, descendant, roster1, lines1)
  {
  }

  /** So a close review that was accounted for stays accounted for. */
  lemma ClosedStaysClosed(r: Review, es: seq<Entry>, later: seq<Entry>, re: Patterns, git: Git, head: string, descendant: string,
                          roster: set<string>, roster1: set<string>, lines: map<string, string>, lines1: map<string, string>)
    requires Lineage(git) && git.isAncestor(head, descendant) == Some(true)
    requires es <= later && roster <= roster1 && lines.Keys <= lines1.Keys
    requires Accounted(r, WalkedLines(es, re, git, head, roster, lines), lines)
    ensures Accounted(r, WalkedLines(later, re, git, descendant, roster1, lines1), lines1)
  {
  }

  /** The slice gate has no such memory. From a pass, rewording a line so that its text has this hash
      keeps the pass exactly when the line is out of scope or there is evidence for the new text too. */
  lemma RewordExactly(inputs: Inputs, after: Inputs, re: Patterns, git: Git, head: string, line: string, hash: string)
    requires Trusted(inputs, re, git) && Clean(inputs, re, git) && line in inputs.lines.value
    requires after == inputs.(lines := Some(inputs.lines.value[line := hash])) && Trusted(after, re, git)
    requires head == HeadOf(git, inputs.ledger.value).value
    ensures Clean(after, re, git) <==>
            (InScope(inputs.scope.value, line) ==>
               HasEvidence(inputs.ledger.value, line, re, git, head, inputs.roster.value, after.lines.value, inputs.scope.value))
  {
  }

}
