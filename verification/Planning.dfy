/**
 * Package commands and their planning cache: an installation runs at once when the planning marker names
 * the current environment, and otherwise only after a check, a migration, a verification and a refresh.
 */
module Planning {
  import opened Basics
  import opened CommandResult

  /** The root's identity file. */
  datatype RootId = Missing | Symbolic | Content(text: string)

  /** What a planning identity depends on; `binding` stands for the launcher's arguments and the group. */
  datatype World = World(rootId: RootId, executables: bool, binding: nat)

  datatype Identity = Identity(rootId: string, binding: nat)

  /** Reading the identity: it may throw, find no root identity yet, or know it. */
  datatype Identified = Unreadable | NoRoot | Known(identity: Identity)

  /** What a launched command brings: its exit, its output, and the environment it leaves. */
  datatype Response = Response(exit: int, lines: seq<Line>, after: World)

  datatype Request = Request(action: string, argv: seq<string>)

  /** A command that was launched, whether its result was accepted, and the identity around it. */
  datatype Event = Event(request: Request, ok: bool, before: Identified, after: Identified)

  const PREPARATION: seq<Request> := [
    Request("check", ["app-runtime", "check"]),
    Request("migrate", ["app-runtime", "migrate"]),
    Request("verify", ["app-runtime", "check"]),
    Request("refresh", ["repo", "refresh"])]

  function PlanningIdentity(w: World): Identified
  {
    match w.rootId
    case Missing => NoRoot
    case Symbolic => Unreadable
    case Content(text) =>
      if |text| == 64 && HexDigits(text) && w.executables then Known(Identity(text, w.binding)) else Unreadable
  }

  predicate Current(w: World, marker: Option<Identity>)
  {
    PlanningIdentity(w).Known? && marker == Some(PlanningIdentity(w).identity)
  }

  /** Of the output, the last line that looks like a result is kept. */
  function Kept(lines: seq<Line>): seq<Line>
  {
    if lines == [] then []
    else if lines[|lines| - 1].braced && lines[|lines| - 1].mentions then [lines[|lines| - 1]]
    else Kept(lines[..|lines| - 1])
  }

  /** The commands a call leads to. */
  function Plan(request: Request, current: bool): seq<Request>
  {
    if request.action == "install" && !current then PREPARATION + [request] else [request]
  }

  /** The events are the first commands of the plan, each launched only after all before it succeeded. */
  ghost predicate InOrder(events: seq<Event>, plan: seq<Request>)
  {
    && |events| <= |plan|
    && (forall k | 0 <= k < |events| :: events[k].request == plan[k])
    && (forall k | 0 <= k < |events| - 1 :: events[k].ok)
  }

  ghost predicate Completed(events: seq<Event>, plan: seq<Request>)
  {
    InOrder(events, plan) && |events| == |plan| && forall k | 0 <= k < |events| :: events[k].ok
  }

  lemma InOrderNext(events: seq<Event>, plan: seq<Request>, more: seq<Event>, rest: seq<Request>)
    requires Completed(events, plan) && InOrder(more, rest)
    ensures InOrder(events + more, plan + rest)
    ensures Completed(more, rest) ==> Completed(events + more, plan + rest)
  {
  }

  lemma InOrderStops(events: seq<Event>, plan: seq<Request>, rest: seq<Request>)
    requires InOrder(events, plan)
    ensures InOrder(events, plan + rest)
  {
  }

  /** Without a current marker, an installation that was launched came fifth, after four successes in order. */
  lemma InstallLaunchedLast(events: seq<Event>, request: Request, k: nat)
    requires request.action == "install" && InOrder(events, Plan(request, false))
    requires k < |events| && events[k].request.action == "install"
    ensures k == 4 && |events| == 5 && events[k].request == request
    ensures events[0].ok && events[0].request == Request("check", ["app-runtime", "check"])
    ensures events[1].ok && events[1].request == Request("migrate", ["app-runtime", "migrate"])
    ensures events[2].ok && events[2].request == Request("verify", ["app-runtime", "check"])
    ensures events[3].ok && events[3].request == Request("refresh", ["repo", "refresh"])
  {
    assert PREPARATION[0].action == "check" && PREPARATION[1].action == "migrate";
    assert PREPARATION[2].action == "verify" && PREPARATION[3].action == "refresh";
    assert events[k].request == Plan(request, false)[k];
  }

  /** A refresh that succeeded with the same identity before and after. */
  ghost predicate Refreshes(e: Event, identity: Identity)
  {
    e.request.action == "refresh" && e.ok && e.before == e.after == Known(identity)
  }

  /** The marker holds an identity only if some refresh succeeded with it. */
  ghost predicate Earned(log: seq<Event>, marker: Option<Identity>)
  {
    marker.Some? ==> exists k | 0 <= k < |log| :: Refreshes(log[k], marker.value)
  }

  /** What a call to the runtime changes: the environment, the marker, the responses used and the commands launched. */
  datatype Env = Env(world: World, marker: Option<Identity>, launches: nat, log: seq<Event>)

  /** The verdict on a response: the process exited with 0 and the gate accepts what was kept of its output. */
  ghost predicate Satisfies(request: Request, response: Response)
  {
    response.exit == 0 && Accepted(request.action, 0, Kept(response.lines))
  }

  /** One command launched, unless an executable is not the expected one. */
  ghost function Launched(e: Env, responses: seq<Response>, request: Request): (Env, bool)
  {
    if !e.world.executables then (e, false)
    else
      var answered := e.launches < |responses|;
      var world := if answered then responses[e.launches].after else e.world;
      var ok := answered && Satisfies(request, responses[e.launches]);
      (Env(world, e.marker, if answered then e.launches + 1 else e.launches,
           e.log + [Event(request, ok, PlanningIdentity(e.world), PlanningIdentity(world))]), ok)
  }

  /** One command; a refresh that succeeds saves the identity it began with, when that has not changed. */
  ghost function Commanded(e: Env, responses: seq<Response>, request: Request): (Env, bool)
  {
    if request.action != "refresh" then Launched(e, responses, request)
    else
      var before := PlanningIdentity(e.world);
      var (launched, ok) := Launched(e, responses, request);
      var after := PlanningIdentity(launched.world);
      if before.Unreadable? then (e, false)
      else if !ok || after.Unreadable? then (launched, false)
      else if before.Known? && before == after then (launched.(marker := Some(after.identity)), true)
      else (launched, true)
  }

  /** Commands one after the other, up to the first that fails. */
  ghost function CommandedAll(e: Env, responses: seq<Response>, requests: seq<Request>): (Env, bool)
  {
    if requests == [] then (e, true)
    else
      var (earlier, ok) := CommandedAll(e, responses, requests[..|requests| - 1]);
      if ok then Commanded(earlier, responses, requests[|requests| - 1]) else (earlier, false)
  }

  lemma CommandedNext(e: Env, responses: seq<Response>, requests: seq<Request>, request: Request)
    ensures CommandedAll(e, responses, requests + [request])
         == (var (earlier, ok) := CommandedAll(e, responses, requests);
             if ok then Commanded(earlier, responses, request) else (earlier, false))
  {
    assert (requests + [request])[..|requests|] == requests;
  }

  lemma CommandedOne(e: Env, responses: seq<Response>, request: Request)
    ensures CommandedAll(e, responses, [request]) == Commanded(e, responses, request)
  {
    CommandedNext(e, responses, [], request);
    assert [] + [request] == [request];
  }

  lemma {:induction false} CommandedStops(e: Env, responses: seq<Response>, requests: seq<Request>, k: nat)
    requires k <= |requests| && !CommandedAll(e, responses, requests[..k]).1
    ensures CommandedAll(e, responses, requests) == CommandedAll(e, responses, requests[..k])
  {
    if k == |requests| {
      assert requests[..k] == requests;
    } else {
      var earlier := requests[..|requests| - 1];
      assert earlier[..k] == requests[..k];
      CommandedStops(e, responses, earlier, k);
      assert requests == earlier + [requests[|requests| - 1]];
      CommandedNext(e, responses, earlier, requests[|requests| - 1]);
    }
  }

  /** Step k of the preparation, after the steps before it succeeded. */
  lemma PreparedNext(e: Env, responses: seq<Response>, k: nat)
    requires k < |PREPARATION| && CommandedAll(e, responses, PREPARATION[..k]).1
    ensures var now := Commanded(CommandedAll(e, responses, PREPARATION[..k]).0, responses, PREPARATION[k]);
            && CommandedAll(e, responses, PREPARATION[..k + 1]) == now
            && (!now.1 ==> CommandedAll(e, responses, PREPARATION) == now)
  {
    assert PREPARATION[..k + 1] == PREPARATION[..k] + [PREPARATION[k]];
    CommandedNext(e, responses, PREPARATION[..k], PREPARATION[k]);
    if !CommandedAll(e, responses, PREPARATION[..k + 1]).1 { CommandedStops(e, responses, PREPARATION, k + 1); }
  }

  /** A whole call. */
  ghost function Ran(e: Env, responses: seq<Response>, request: Request): (Env, bool)
  {
    if request.action == "install" && PlanningIdentity(e.world).Unreadable? then (e, false)
    else CommandedAll(e, responses, Plan(request, Current(e.world, e.marker)))
  }

  class Runtime {
    const responses: seq<Response>
    var world: World
    var marker: Option<Identity>
    var launches: nat
    ghost var log: seq<Event>

    constructor (world: World, responses: seq<Response>)
      ensures Valid() && this.world == world && marker == None && log == []
    {
      this.world, this.responses, marker, launches, log := world, responses, None, 0, [];
    }

    ghost predicate Valid()
      reads this
    {
      Earned(log, marker)
    }

    ghost function Now(): Env
      reads this
    {
      Env(world, marker, launches, log)
    }

    /** A command is built only for the expected executables; `accepted` is the verdict on its result. */
    method Launch(request: Request) returns (accepted: bool)
      modifies this`world, this`launches, this`log
      ensures (Now(), accepted) == Launched(old(Now()), responses, request)
      ensures !old(world).executables ==> !accepted && log == old(log) && world == old(world)
      ensures old(world).executables ==>
                log == old(log) + [Event(request, accepted, PlanningIdentity(old(world)), PlanningIdentity(world))]
      ensures accepted ==>
                && old(launches) < |responses| && world == responses[old(launches)].after
                && responses[old(launches)].exit == 0
                && Accepted(request.action, 0, Kept(responses[old(launches)].lines))
    {
      accepted := false;
      if !world.executables { return; }
      ghost var before := PlanningIdentity(world);
      if launches < |responses| {
        var response := responses[launches];
        launches := launches + 1;
        world := response.after;
        if response.exit == 0 {
          var terminal := LastKept(response.lines);
          var result := Require(request.action, 0, terminal);
          accepted := result.Some?;
        }
      }
      log := log + [Event(request, accepted, before, PlanningIdentity(world))];
    }

    /** The consumer of the output lines, which replaces what it holds at every line that looks like a result. */
    static method LastKept(lines: seq<Line>) returns (kept: seq<Line>)
      ensures kept == Kept(lines)
    {
      kept := [];
      for i := 0 to |lines|
        invariant kept == Kept(lines[..i])
      {
        assert lines[..i + 1][..i] == lines[..i];
        if lines[i].braced && lines[i].mentions { kept := [lines[i]]; }
      }
      assert lines[..|lines|] == lines;
    }

    method RunPackageCommand(request: Request) returns (ok: bool)
      requires Valid()
      modifies this
      ensures Valid() && (Now(), ok) == Commanded(old(Now()), responses, request)
      ensures old(log) <= log && InOrder(log[|old(log)|..], [request])
      ensures ok ==> Completed(log[|old(log)|..], [request])
      ensures marker == if Completed(log[|old(log)|..], [request]) && request.action == "refresh"
                           && log[|log| - 1].before.Known? && log[|log| - 1].before == log[|log| - 1].after
                        then Some(log[|log| - 1].before.identity) else old(marker)
    {
      var planningIdentity := NoRoot;
      if request.action == "refresh" {
        planningIdentity := PlanningIdentity(world);
        if planningIdentity.Unreadable? { return false; }
      }
      ok := Launch(request);
      StillEarned(old(log), marker, log);
      if !ok { return false; }
      assert log[|old(log)|..] == [log[|log| - 1]];
      if request.action == "refresh" {
        ok := RememberPlanning(planningIdentity);
        if marker != old(marker) { assert Refreshes(log[|log| - 1], marker.value); }
      }
    }

    /** Saves the identity when it is the one the refresh began with; it throws when it cannot be read. */
    method RememberPlanning(before: Identified) returns (ok: bool)
      modifies this`marker
      ensures ok <==> !PlanningIdentity(world).Unreadable?
      ensures marker == if before.Known? && before == PlanningIdentity(world) then Some(before.identity)
                else old(marker)
    {
      var after := PlanningIdentity(world);
      if after.Unreadable? { return false; }
      if before.Known? && before == after { marker := Some(after.identity); }
      ok := true;
    }

    /**
     * An installation is launched only if the marker named the current identity on entry, or if in this very
     * call the check, the migration, the verification and the refresh were launched in order and succeeded.
     */
    method RunPackages(request: Request) returns (ok: bool)
      requires Valid()
      modifies this
      ensures Valid() && (Now(), ok) == Ran(old(Now()), responses, request)
      ensures old(log) <= log
      ensures InOrder(log[|old(log)|..], Plan(request, Current(old(world), old(marker))))
      ensures ok ==> Completed(log[|old(log)|..], Plan(request, Current(old(world), old(marker))))
      decreases if request.action == "install" then 3 else 0
    {
      ghost var e := Now();
      CommandedOne(e, responses, request);
      CommandedNext(e, responses, PREPARATION, request);
      if request.action == "install" {
        var identity := PlanningIdentity(world);
        if identity.Unreadable? { return false; }
        var current := identity.Known? && marker == Some(identity.identity);
        if !current {
          var prepared := Prepare();
          if !prepared {
            assert (PREPARATION + [request])[..|PREPARATION|] == PREPARATION;
            CommandedStops(e, responses, PREPARATION + [request], |PREPARATION|);
            InOrderStops(log[|old(log)|..], PREPARATION, [request]);
            return false;
          }
        }
      }
      ghost var prepared := log;
      hide Commanded;
      ok := RunPackageCommand(request);
      Between(old(log), prepared, log);
      if request.action == "install" && !Current(old(world), old(marker)) {
        InOrderNext(prepared[|old(log)|..], PREPARATION, log[|prepared|..], [request]);
      }
    }

    /** The four recursive calls that precede an installation. */
    method Prepare() returns (ok: bool)
      requires Valid()
      modifies this
      ensures Valid() && (Now(), ok) == CommandedAll(old(Now()), responses, PREPARATION)
      ensures old(log) <= log && InOrder(log[|old(log)|..], PREPARATION)
      ensures ok ==> Completed(log[|old(log)|..], PREPARATION)
      decreases 2
    {
      ghost var start, e := log, Now();
      assert PREPARATION[..0] == [] && PREPARATION[..4] == PREPARATION;
      hide CommandedAll, InOrder, Completed, Commanded;
      NothingCommanded(e, responses);
      ok := PrepareStep(Request("check", ["app-runtime", "check"]), 0, start, e);
      if !ok { return; }
      ok := PrepareStep(Request("migrate", ["app-runtime", "migrate"]), 1, start, e);
      if !ok { return; }
      ok := PrepareStep(Request("verify", ["app-runtime", "check"]), 2, start, e);
      if !ok { return; }
      ok := PrepareStep(Request("refresh", ["repo", "refresh"]), 3, start, e);
    }

    /** One of them, after those before it succeeded. */
    method PrepareStep(request: Request, ghost k: nat, ghost start: seq<Event>, ghost e: Env) returns (ok: bool)
      requires Valid() && k < |PREPARATION| && request == PREPARATION[k]
      requires CommandedAll(e, responses, PREPARATION[..k]) == (Now(), true)
      requires start <= log && Completed(log[|start|..], PREPARATION[..k])
      modifies this
      ensures Valid() && (Now(), ok) == CommandedAll(e, responses, PREPARATION[..k + 1])
      ensures !ok ==> (Now(), ok) == CommandedAll(e, responses, PREPARATION)
      ensures old(log) <= log && start <= log && InOrder(log[|start|..], PREPARATION)
      ensures ok ==> Completed(log[|start|..], PREPARATION[..k + 1])
      decreases 1
    {
      hide CommandedAll, InOrder, Completed, Commanded;
      PreparedNext(e, responses, k);
      CommandedOne(Now(), responses, request);
      ok := RunPackages(request);
      Continue(start, old(log), log, k, ok);
    }
  }

  lemma Between(a: seq<Event>, b: seq<Event>, c: seq<Event>)
    requires a <= b <= c
    ensures c[|a|..] == b[|a|..] + c[|b|..]
  {
  }

  lemma NothingCommanded(e: Env, responses: seq<Response>)
    ensures CommandedAll(e, responses, []) == (e, true)
    ensures Completed([], [])
  {
  }

  /** Step k of the preparation extends the steps before it, and stops the series when it fails. */
  lemma Continue(start: seq<Event>, earlier: seq<Event>, log: seq<Event>, k: nat, ok: bool)
    requires k < |PREPARATION| && start <= earlier <= log
    requires Completed(earlier[|start|..], PREPARATION[..k])
    requires InOrder(log[|earlier|..], [PREPARATION[k]]) && (ok ==> Completed(log[|earlier|..], [PREPARATION[k]]))
    ensures InOrder(log[|start|..], PREPARATION)
    ensures ok ==> Completed(log[|start|..], PREPARATION[..k + 1])
  {
    assert log[|start|..] == earlier[|start|..] + log[|earlier|..];
    assert PREPARATION[..k] + [PREPARATION[k]] == PREPARATION[..k + 1];
    InOrderNext(earlier[|start|..], PREPARATION[..k], log[|earlier|..], [PREPARATION[k]]);
    assert PREPARATION[..k + 1] + PREPARATION[k + 1..] == PREPARATION;
    InOrderStops(log[|start|..], PREPARATION[..k + 1], PREPARATION[k + 1..]);
  }

  lemma StillEarned(log: seq<Event>, marker: Option<Identity>, more: seq<Event>)
    requires Earned(log, marker) && log <= more
    ensures Earned(more, marker)
  {
    if marker.Some? {
      var k :| 0 <= k < |log| && Refreshes(log[k], marker.value);
      assert Refreshes(more[k], marker.value);
    }
  }

  // --- What identities and kept lines say --------------------------------------------------

  /** When an identity is known, and that it tells roots and launcher arguments apart. */
  lemma IdentityExactly(v: World, w: World)
    ensures PlanningIdentity(w).NoRoot? <==> w.rootId.Missing?
    ensures PlanningIdentity(w).Known? <==>
              && w.executables && w.rootId.Content? && |w.rootId.text| == 64
              && forall i | 0 <= i < 64 :: '0' <= w.rootId.text[i] <= '9' || 'a' <= w.rootId.text[i] <= 'f'
    ensures PlanningIdentity(v).Known? && PlanningIdentity(w).Known? ==>
              (PlanningIdentity(v) == PlanningIdentity(w) <==> v.rootId == w.rootId && v.binding == w.binding)
  {
    if w.rootId.Content? { HexDigitsExactly(w.rootId.text); }
    hide HexDigits;
  }

  /** Line k is the last that begins an object and mentions the schema. */
  predicate LastMention(lines: seq<Line>, k: nat)
    requires k < |lines|
  {
    lines[k].braced && lines[k].mentions && forall i | k < i < |lines| :: !(lines[i].braced && lines[i].mentions)
  }

  /** Of an output the last line that begins an object and mentions the schema is kept, and nothing else. */
  lemma {:induction false} KeptExactly(lines: seq<Line>)
    ensures Kept(lines) == [] <==> forall k | 0 <= k < |lines| :: !LastMention(lines, k)
    ensures forall k | 0 <= k < |lines| && LastMention(lines, k) :: Kept(lines) == [lines[k]]
  {
    if lines != [] {
      var earlier, last := lines[..|lines| - 1], |lines| - 1;
      if lines[last].braced && lines[last].mentions {
        assert LastMention(lines, last);
        forall k | 0 <= k < |lines| && LastMention(lines, k) ensures k == last {}
      } else {
        KeptExactly(earlier);
        forall k | 0 <= k < |earlier| ensures LastMention(lines, k) <==> LastMention(earlier, k) {
          assert forall i | 0 <= i < |earlier| :: earlier[i] == lines[i];
        }
        forall k | 0 <= k < |lines| && LastMention(lines, k) ensures k < |earlier| {}
      }
    }
  }

  /** What the gate accepts of the kept line is the last result of the whole output. */
  lemma {:induction false} KeptDecides(action: string, lines: seq<Line>)
    requires forall i | 0 <= i < |lines| :: IsResult(lines[i]) ==> lines[i].mentions
    requires Accepted(action, 0, Kept(lines))
    ensures LastResult(lines) == LastResult(Kept(lines))
  {
    if lines != [] {
      var last, earlier := lines[|lines| - 1], lines[..|lines| - 1];
      if last.braced && last.mentions {
        assert [last][..0] == [];
        assert IsResult(last);
      } else {
        assert !IsResult(last);
        assert forall i | 0 <= i < |earlier| :: earlier[i] == lines[i];
        hide Accepted;
        KeptDecides(action, earlier);
      }
    }
  }

  // --- When nothing is launched ------------------------------------------------------------

  /** Over executables that are not the expected ones nothing is launched and nothing changes. */
  lemma UnexpectedExecutables(e: Env, responses: seq<Response>, request: Request)
    requires !e.world.executables
    ensures Ran(e, responses, request) == (e, false)
  {
    if Current(e.world, e.marker) { assert false; }
    if request.action == "install" {
      CommandedOne(e, responses, PREPARATION[0]);
      assert (PREPARATION + [request])[..1] == [PREPARATION[0]];
      CommandedStops(e, responses, PREPARATION + [request], 1);
    } else {
      CommandedOne(e, responses, request);
    }
    hide CommandedAll;
  }

  /** Nor when an installation or a refresh cannot read the identity it is to begin with. */
  lemma UnreadableIdentity(e: Env, responses: seq<Response>, request: Request)
    requires PlanningIdentity(e.world).Unreadable? && request.action in {"install", "refresh"}
    ensures Ran(e, responses, request) == (e, false)
  {
    CommandedOne(e, responses, request);
    hide CommandedAll, PlanningIdentity;
  }

  /** A refresh succeeds with its command, if the identity can be read before and after; then it may set the marker. */
  lemma RefreshExactly(e: Env, responses: seq<Response>, request: Request)
    requires request.action == "refresh"
    ensures var (t, ok) := Ran(e, responses, request);
            var launched := e.world.executables && e.launches < |responses|
                            && Satisfies(request, responses[e.launches]);
            var before := PlanningIdentity(e.world);
            && (ok <==> launched && !before.Unreadable? && !PlanningIdentity(t.world).Unreadable?)
            && (ok && before.Known? && before == PlanningIdentity(t.world) ==> t.marker == Some(before.identity))
            && (!(ok && before.Known? && before == PlanningIdentity(t.world)) ==> t.marker == e.marker)
  {
    CommandedOne(e, responses, request);
    hide CommandedAll, PlanningIdentity, Satisfies;
  }

  // --- Whole calls ------------------------------------------------------------------------------

  /** The next responses satisfy the requests in turn and leave the environment as it is. */
  ghost predicate Steady(e: Env, responses: seq<Response>, requests: seq<Request>)
  {
    && e.launches + |requests| <= |responses|
    && forall k | 0 <= k < |requests| :: SteadyAt(e, responses, requests, k)
  }

  ghost predicate SteadyAt(e: Env, responses: seq<Response>, requests: seq<Request>, k: nat)
    requires k < |requests| && e.launches + k < |responses|
  {
    var response := responses[e.launches + k];
    response.after == e.world && Satisfies(requests[k], response)
  }

  predicate Refreshing(requests: seq<Request>)
  {
    exists k | 0 <= k < |requests| :: requests[k].action == "refresh"
  }

  lemma SteadyStep(e: Env, responses: seq<Response>, request: Request)
    requires e.launches < |responses| && responses[e.launches].after == e.world
    requires Satisfies(request, responses[e.launches]) && PlanningIdentity(e.world).Known?
    ensures var (t, ok) := Commanded(e, responses, request);
            && ok && t.world == e.world && t.launches == e.launches + 1 && |t.log| == |e.log| + 1
            && t.marker == if request.action == "refresh" then Some(PlanningIdentity(e.world).identity) else e.marker
  {
    hide Satisfies;
  }

  /** In a known environment that stays as it is, commands that are accepted all run, and a refresh sets the marker. */
  lemma {:induction false} SteadyRun(e: Env, responses: seq<Response>, requests: seq<Request>)
    requires Steady(e, responses, requests) && PlanningIdentity(e.world).Known?
    ensures var (t, ok) := CommandedAll(e, responses, requests);
            && ok && t.world == e.world && t.launches == e.launches + |requests|
            && t.marker == (if Refreshing(requests) then Some(PlanningIdentity(e.world).identity) else e.marker)
            && |t.log| == |e.log| + |requests|
    decreases |requests|
  {
    if requests != [] {
      var earlier, last := requests[..|requests| - 1], requests[|requests| - 1];
      assert requests == earlier + [last];
      hide *;
      SteadyEarlier(e, responses, earlier, last);
      SteadyRun(e, responses, earlier);
      SteadyStep(CommandedAll(e, responses, earlier).0, responses, last);
      CommandedNext(e, responses, earlier, last);
      RefreshingNext(earlier, last);
    }
  }

  lemma SteadyEarlier(e: Env, responses: seq<Response>, earlier: seq<Request>, last: Request)
    requires Steady(e, responses, earlier + [last])
    ensures Steady(e, responses, earlier) && e.launches + |earlier| < |responses|
    ensures responses[e.launches + |earlier|].after == e.world && Satisfies(last, responses[e.launches + |earlier|])
  {
    var requests := earlier + [last];
    forall k | 0 <= k < |earlier| ensures SteadyAt(e, responses, earlier, k) {
      assert SteadyAt(e, responses, requests, k);
    }
    assert SteadyAt(e, responses, requests, |earlier|);
    hide Satisfies;
  }

  lemma RefreshingNext(earlier: seq<Request>, last: Request)
    ensures Refreshing(earlier + [last]) <==> Refreshing(earlier) || last.action == "refresh"
  {
    var requests := earlier + [last];
    assert requests[|earlier|] == last;
    assert forall k | 0 <= k < |earlier| :: requests[k] == earlier[k];
  }

  lemma FirstSteady(e: Env, responses: seq<Response>, first: Request, second: Request)
    requires Steady(e, responses, PREPARATION + [first, second])
    ensures Steady(e, responses, PREPARATION + [first])
    ensures responses[e.launches + 5].after == e.world && Satisfies(second, responses[e.launches + 5])
  {
    var all := PREPARATION + [first, second];
    forall k | 0 <= k < 5 ensures SteadyAt(e, responses, PREPARATION + [first], k) {
      assert SteadyAt(e, responses, all, k);
    }
    assert SteadyAt(e, responses, all, 5);
    hide Satisfies;
  }

  /**
   * The planning cache.  In a known environment that stays as it is, an installation whose marker is missing or
   * names another environment launches five commands and leaves the marker naming this one, so that the next
   * installation launches itself alone.
   */
  lemma InstallTwice(e: Env, responses: seq<Response>, first: Request, second: Request)
    requires first.action == "install" && second.action == "install" && PlanningIdentity(e.world).Known?
    requires e.marker != Some(PlanningIdentity(e.world).identity)
    requires Steady(e, responses, PREPARATION + [first, second])
    ensures var (t, ok) := Ran(e, responses, first);
            && ok && t.launches == e.launches + 5 && |t.log| == |e.log| + 5
            && t.world == e.world && t.marker == Some(PlanningIdentity(e.world).identity)
            && var (u, again) := Ran(t, responses, second);
               again && u.launches == t.launches + 1 && u.marker == t.marker && |u.log| == |t.log| + 1
  {
    var all := PREPARATION + [first, second];
    FirstSteady(e, responses, first, second);
    SteadyRun(e, responses, PREPARATION + [first]);
    assert (PREPARATION + [first])[3].action == "refresh";
    var t := Ran(e, responses, first).0;
    assert SteadyAt(t, responses, [second], 0);
    SteadyRun(t, responses, [second]);
    hide CommandedAll, PlanningIdentity, Satisfies;
  }
}
