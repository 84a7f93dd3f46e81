/** The staleness guard of the data-fetching hook, as interleaved steps: a component renders with new
    arguments, its effect runs some time later, requests settle in any order, the component unmounts.
 */
module ApiGet {
  import opened Wrappers

  /** The arguments, compared by identity: a path or the decision to hold, a session, a reload key. */
  datatype Key = Key(path: Option<string>, session: int, reloadKey: int)

  type Body = int
  datatype ApiError = ApiError(kind: string, message: string)

  /** How a request settles: with a body, with an error of the client's own, or with anything else. */
  datatype Outcome = Body(body: Body) | Refused(error: ApiError) | Threw(text: string)

  datatype AsyncState = AsyncState(data: Option<Body>, error: Option<ApiError>, loading: bool)

  const IDLE := AsyncState(None, None, false)
  const LOADING := AsyncState(None, None, true)

  function Initial(key: Key): AsyncState {
    AsyncState(None, None, key.path.Some?)
  }

  function Settled(o: Outcome): AsyncState {
    match o
    case Body(b) => AsyncState(Some(b), None, false)
    case Refused(e) => AsyncState(None, Some(e), false)
    case Threw(text) => AsyncState(None, Some(ApiError("network", text)), false)
  }

  /** One request: the arguments its effect ran with, that effect's flag, and how it settled. */
  datatype Request = Request(key: Key, stale: bool, outcome: Option<Outcome>)

  /** A mounted or unmounted component: the arguments last rendered, those its effect last ran with,
      every request made, the one the pending cleanup would mark, and the state it shows. */
  datatype Hook = Hook(
    mounted: bool, rendered: Key, committed: Option<Key>, requests: seq<Request>, live: Option<nat>,
    state: AsyncState)

  datatype Step = Render(key: Key) | Effect | Settle(request: nat, outcome: Outcome) | Unmount

  // ---------------------------------------------------------------------------------
  // The steps
  // ---------------------------------------------------------------------------------

  function Mount(key: Key): Hook {
    Hook(true, key, None, [], None, Initial(key))
  }

  /** The cleanup of the last effect, when it left one. */
  function Cleanup(h: Hook): Hook {
    if h.live.Some? && h.live.value < |h.requests| then
      h.(requests := h.requests[h.live.value := h.requests[h.live.value].(stale := true)], live := None)
    else h.(live := None)
  }

  /** Cleanup, then the body of the effect: hold, or show loading and make a request. */
  function RunEffect(h: Hook): Hook {
    var c := Cleanup(h);
    if c.rendered.path.None? then c.(committed := Some(c.rendered), state := IDLE)
    else c.(committed := Some(c.rendered), state := LOADING,
            requests := c.requests + [Request(c.rendered, false, None)], live := Some(|c.requests|))
  }

  /** A request settles once; its callback changes the state unless its effect's flag is set. */
  function SettleOne(h: Hook, i: nat, o: Outcome): Hook {
    if i >= |h.requests| || h.requests[i].outcome.Some? then h
    else
      var s := h.(requests := h.requests[i := h.requests[i].(outcome := Some(o))]);
      if h.requests[i].stale then s else s.(state := Settled(o))
  }

  function Next(h: Hook, s: Step): Hook {
    match s
    case Render(key) => if h.mounted then h.(rendered := key) else h
    case Effect => if h.mounted then RunEffect(h) else h
    case Settle(i, o) => SettleOne(h, i, o)
    case Unmount => if h.mounted then Cleanup(h).(mounted := false) else h
  }

  /** A run: any steps whatever after mounting. An effect may run again with the same arguments. */
  function Run(key: Key, steps: seq<Step>): Hook {
    if steps == [] then Mount(key)
    else Next(Run(key, steps[..|steps| - 1]), steps[|steps| - 1])
  }

  // ---------------------------------------------------------------------------------
  // The hook, imperatively
  // ---------------------------------------------------------------------------------

  class UseApiGet {
    var mounted: bool
    var rendered: Key
    var committed: Option<Key>
    var requests: seq<Request>
    var live: Option<nat>
    var state: AsyncState

    function Now(): Hook
      reads this
    {
      Hook(mounted, rendered, committed, requests, live, state)
    }

    constructor (key: Key)
      ensures Now() == Mount(key)
    {
      mounted, rendered, committed := true, key, None;
      requests, live, state := [], None, Initial(key);
    }

    method DoRender(key: Key)
      modifies this
      ensures Now() == Next(old(Now()), Render(key))
    {
      if mounted {
        rendered := key;
      }
    }

    method DoCleanup()
      modifies this
      ensures Now() == Cleanup(old(Now()))
    {
      if live.Some? && live.value < |requests| {
        requests := requests[live.value := requests[live.value].(stale := true)];
      }
      live := None;
    }

    method DoEffect()
      modifies this
      ensures Now() == Next(old(Now()), Effect)
    {
      if !mounted {
        return;
      }
      DoCleanup();
      committed := Some(rendered);
      if rendered.path.None? {
        state := IDLE;
        return;
      }
      state := LOADING;
      live := Some(|requests|);
      requests := requests + [Request(rendered, false, None)];
    }

    method DoSettle(i: nat, o: Outcome)
      modifies this
      ensures Now() == Next(old(Now()), Settle(i, o))
    {
      if i >= |requests| || requests[i].outcome.Some? {
        return;
      }
      var stale := requests[i].stale;
      requests := requests[i := requests[i].(outcome := Some(o))];
      if !stale {
        match o
        case Body(b) => state := AsyncState(Some(b), None, false);
        case Refused(e) => state := AsyncState(None, Some(e), false);
        case Threw(text) => state := AsyncState(None, Some(ApiError("network", text)), false);
      }
    }

    method DoUnmount()
      modifies this
      ensures Now() == Next(old(Now()), Unmount)
    {
      if mounted {
        DoCleanup();
        mounted := false;
      }
    }

    /** Any number of steps in any order. */
    method Play(steps: seq<Step>, ghost key: Key)
      requires Now() == Mount(key)
      modifies this
      ensures Now() == Run(key, steps)
    {
      for k := 0 to |steps|
        invariant Now() == Run(key, steps[..k])
      {
        assert steps[..k + 1][..k] == steps[..k];
        match steps[k]
        case Render(newKey) => DoRender(newKey);
        case Effect => DoEffect();
        case Settle(i, o) => DoSettle(i, o);
        case Unmount => DoUnmount();
      }
      assert steps[..|steps|] == steps;
    }
  }

  // ---------------------------------------------------------------------------------
  // What every run keeps
  // ---------------------------------------------------------------------------------

  /** At most one request is live, and it is the last effect's; once an effect has run, the state is
      exactly what that request's progress says. */
  predicate Valid(h: Hook) {
    && (forall i | 0 <= i < |h.requests| :: !h.requests[i].stale <==> h.live == Some(i))
    && (h.live.Some? ==> h.mounted && h.live.value < |h.requests|)
    && (h.committed.None? ==> h.requests == [] && !Shows(h.state))
    && (h.live.Some? ==> h.committed == Some(h.requests[h.live.value].key) && h.committed.value.path.Some?)
    && (h.mounted && h.committed.Some? && h.live.None? ==> h.committed.value.path.None?)
    && (h.mounted && h.committed.Some? ==> h.state == Progress(h))
  }

  /** The state that the live request's progress calls for. */
  function Progress(h: Hook): AsyncState
    requires h.live.Some? ==> h.live.value < |h.requests|
  {
    if h.live.None? then IDLE
    else match h.requests[h.live.value].outcome
      case None => LOADING
      case Some(o) => Settled(o)
  }

  /** Some data or some error is shown. */
  predicate Shows(s: AsyncState) {
    s.data.Some? || s.error.Some?
  }

  lemma StepKeepsValid(h: Hook, s: Step)
    requires Valid(h)
    ensures Valid(Next(h, s))
  {
  }

  lemma {:induction false} RunsAreValid(key: Key, steps: seq<Step>)
    ensures Valid(Run(key, steps))
  {
    if steps != [] {
      RunsAreValid(key, steps[..|steps| - 1]);
      StepKeepsValid(Run(key, steps[..|steps| - 1]), steps[|steps| - 1]);
    }
  }

  predicate Live(h: Hook, i: nat) {
    i < |h.requests| && !h.requests[i].stale
  }

  /** The data and the error that an answer is shown as: a body is the data, the client's own error is
      the error as it is, and anything else is a network error with its text. */
  predicate ShownAs(s: AsyncState, o: Outcome) {
    match o
    case Body(b) => s.data == Some(b) && s.error == None
    case Refused(e) => s.data == None && s.error == Some(e)
    case Threw(text) => s.data == None && s.error.Some? && s.error.value.kind == "network" && s.error.value.message == text
  }

  /** In every interleaving: at most one request is live; while mounted and once an effect has run, what
      is shown came from the live request, made for the committed arguments, and is its answer; and the
      hook is loading exactly while that request is unsettled. */
  lemma EveryInterleaving(key: Key, steps: seq<Step>)
    ensures var h := Run(key, steps);
            && (forall i: nat, j: nat | Live(h, i) && Live(h, j) :: i == j)
            && (forall i: nat | Live(h, i) :: h.mounted && h.committed == Some(h.requests[i].key))
            && (h.mounted && h.committed.Some? ==>
                  && (Shows(h.state) ==>
                        exists i: nat :: Live(h, i) && h.requests[i].key == h.committed.value
                                         && h.requests[i].outcome.Some? && h.state == Settled(h.requests[i].outcome.value))
                  && (forall i: nat | Live(h, i) && h.requests[i].outcome.Some? :: ShownAs(h.state, h.requests[i].outcome.value))
                  && (h.state.loading <==> exists i: nat :: Live(h, i) && h.requests[i].outcome.None?))
  {
    RunsAreValid(key, steps);
    var h := Run(key, steps);
    if h.live.Some? {
      assert Live(h, h.live.value);
    }
  }

  /** Until an effect has run, nothing is shown, and the hook is loading exactly when it was mounted with a
      path to load. */
  lemma {:induction false} BeforeTheFirstEffect(key: Key, steps: seq<Step>)
    requires Run(key, steps).committed.None?
    ensures var s := Run(key, steps).state;
            s.data == None && s.error == None && (s.loading <==> key.path.Some?)
  {
    RunsAreValid(key, steps);
    if steps != [] {
      RunsAreValid(key, steps[..|steps| - 1]);
      BeforeTheFirstEffect(key, steps[..|steps| - 1]);
    }
  }

  /** No request is made to hold, and after unmounting nothing changes what was last shown. */
  lemma HoldAndUnmount(h: Hook, s: Step)
    requires Valid(h)
    ensures !h.mounted ==> Next(h, s).state == h.state && |Next(h, s).requests| == |h.requests|
    ensures |Next(h, s).requests| == |h.requests| + (if h.mounted && s.Effect? && h.rendered.path.Some? then 1 else 0)
  {
  }

  // ---------------------------------------------------------------------------------
  // What is shown, read off the steps alone
  // ---------------------------------------------------------------------------------

  predicate Mounted(steps: seq<Step>) {
    forall i | 0 <= i < |steps| :: !steps[i].Unmount?
  }

  /** The arguments last rendered. */
  function Rendered(key: Key, steps: seq<Step>): Key {
    if steps == [] then key
    else
      var before, s := steps[..|steps| - 1], steps[|steps| - 1];
      if s.Render? && Mounted(before) then s.key else Rendered(key, before)
  }

  /** When the effect last ran. */
  function LastEffect(steps: seq<Step>): (r: Option<nat>)
    ensures r.Some? ==> r.value < |steps|
  {
    if steps == [] then None
    else
      var before, s := steps[..|steps| - 1], steps[|steps| - 1];
      if s.Effect? && Mounted(before) then Some(|before|) else LastEffect(before)
  }

  /** How many requests have been made. */
  function Issued(key: Key, steps: seq<Step>): nat {
    if steps == [] then 0
    else
      var before, s := steps[..|steps| - 1], steps[|steps| - 1];
      Issued(key, before) + (if s.Effect? && Mounted(before) && Rendered(key, before).path.Some? then 1 else 0)
  }

  /** How request `r`, made at step `p`, first settled while the component was mounted. */
  function Answer(steps: seq<Step>, r: nat, p: nat): Option<Outcome> {
    if |steps| <= p + 1 then None
    else
      var before, s := steps[..|steps| - 1], steps[|steps| - 1];
      if Answer(before, r, p).Some? then Answer(before, r, p)
      else if s.Settle? && s.request == r && Mounted(before) then Some(s.outcome)
      else None
  }

  /** What the last effect asked for, and the answer it got: nothing else bears on what is shown. */
  function Shown(key: Key, steps: seq<Step>): AsyncState {
    match LastEffect(steps)
    case None => Initial(key)
    case Some(p) =>
      if Rendered(key, steps[..p]).path.None? then IDLE
      else match Answer(steps, Issued(key, steps[..p]), p)
        case None => LOADING
        case Some(o) => Settled(o)
  }

  ghost predicate Tied(key: Key, steps: seq<Step>, h: Hook) {
    && Valid(h) && h.mounted == Mounted(steps) && h.rendered == Rendered(key, steps)
    && |h.requests| == Issued(key, steps) && h.state == Shown(key, steps)
    && (h.committed.Some? <==> LastEffect(steps).Some?)
    && (LastEffect(steps).Some? ==>
          var p := LastEffect(steps).value;
          && h.committed == Some(Rendered(key, steps[..p]))
          && (h.mounted && h.committed.value.path.Some? ==>
                && h.live == Some(Issued(key, steps[..p]))
                && h.requests[h.live.value].outcome == Answer(steps, h.live.value, p)))
  }

  lemma {:induction false} RunsAreTied(key: Key, steps: seq<Step>)
    ensures Tied(key, steps, Run(key, steps))
  {
    if steps != [] {
      var before := steps[..|steps| - 1];
      RunsAreTied(key, before);
      StepStaysTied(key, before, steps[|steps| - 1], steps, Run(key, before));
    }
  }

  predicate Follows(before: seq<Step>, s: Step, steps: seq<Step>) {
    && |steps| == |before| + 1 && steps[..|steps| - 1] == before && steps[|before|] == s
    && (Mounted(steps) <==> Mounted(before) && !s.Unmount?)
    && (LastEffect(before).Some? ==> before[..LastEffect(before).value] == steps[..LastEffect(before).value])
  }

  lemma RenderStaysTied(key: Key, before: seq<Step>, s: Step, steps: seq<Step>, h: Hook)
    requires s.Render? && Follows(before, s, steps) && Tied(key, before, h) && Valid(Next(h, s))
    ensures Tied(key, steps, Next(h, s))
  {
  }

  lemma EffectStaysTied(key: Key, before: seq<Step>, s: Step, steps: seq<Step>, h: Hook)
    requires s.Effect? && Follows(before, s, steps) && Tied(key, before, h) && Valid(Next(h, s))
    ensures Tied(key, steps, Next(h, s))
  {
  }

  lemma SettleStaysTied(key: Key, before: seq<Step>, s: Step, steps: seq<Step>, h: Hook)
    requires s.Settle? && Follows(before, s, steps) && Tied(key, before, h) && Valid(Next(h, s))
    ensures Tied(key, steps, Next(h, s))
  {
  }

  lemma UnmountStaysTied(key: Key, before: seq<Step>, s: Step, steps: seq<Step>, h: Hook)
    requires s.Unmount? && Follows(before, s, steps) && Tied(key, before, h) && Valid(Next(h, s))
    ensures Tied(key, steps, Next(h, s))
  {
  }

  lemma StepStaysTied(key: Key, before: seq<Step>, s: Step, steps: seq<Step>, h: Hook)
    requires steps == before + [s] && Tied(key, before, h)
    ensures Tied(key, steps, Next(h, s))
  {
    assert steps[..|steps| - 1] == before && steps[|before|] == s;
    StepKeepsValid(h, s);
    assert Mounted(steps) <==> Mounted(before) && !s.Unmount? by {
      assert forall i | 0 <= i < |before| :: steps[i] == before[i];
    }
    if LastEffect(before).Some? {
      assert before[..LastEffect(before).value] == steps[..LastEffect(before).value];
    }
    match s
    case Render(_) => RenderStaysTied(key, before, s, steps, h);
    case Effect => EffectStaysTied(key, before, s, steps, h);
    case Settle(_, _) => SettleStaysTied(key, before, s, steps, h);
    case Unmount => UnmountStaysTied(key, before, s, steps, h);
  }

  /** The guard's meaning: whatever the interleaving, what is shown is what the steps call for. */
  lemma ShowsWhatTheStepsCallFor(key: Key, steps: seq<Step>)
    ensures Run(key, steps).state == Shown(key, steps)
  {
    RunsAreTied(key, steps);
  }

  // ---------------------------------------------------------------------------------
  // Between a render and its effect
  // ---------------------------------------------------------------------------------

  /** Whatever data or error is shown answers a request for the arguments now rendered. */
  predicate ShowsTheRendered(h: Hook) {
    Shows(h.state) ==> exists i | 0 <= i < |h.requests| ::
      h.requests[i].key == h.rendered && h.requests[i].outcome.Some? && h.state == Settled(h.requests[i].outcome.value)
      && Live(h, i)
  }

  /** A superseded response does render, for a moment: between a render with new arguments and the
      effect of that render. While mounted, what is shown answers the rendered arguments exactly when
      the effect has caught up with them or nothing is shown. */
  lemma ShowsTheRenderedExactly(key: Key, steps: seq<Step>)
    requires Run(key, steps).mounted
    ensures var h := Run(key, steps);
            ShowsTheRendered(h) <==> !Shows(h.state) || h.committed == Some(h.rendered)
  {
    RunsAreValid(key, steps);
  }

  /** Such a moment: the answer for one path is still shown when another is rendered, and even a first
      answer for the old path that arrives then is shown. */
  lemma SupersededIsShown(a: Key, b: Key, body: Body)
    requires a.path.Some? && a != b
    ensures !ShowsTheRendered(Run(a, [Effect, Settle(0, Body(body)), Render(b)]))
    ensures !ShowsTheRendered(Run(a, [Effect, Render(b), Settle(0, Body(body))]))
  {
    var s := [Effect, Settle(0, Body(body)), Render(b)];
    assert s[..2][..1] == [Effect] && s[..2] == [Effect, Settle(0, Body(body))];
    assert [Effect][..0] == [];
    assert Run(a, [Effect]) == Hook(true, a, Some(a), [Request(a, false, None)], Some(0), LOADING);
    var u := [Effect, Render(b), Settle(0, Body(body))];
    assert u[..2][..1] == [Effect] && u[..2] == [Effect, Render(b)];
  }
}
