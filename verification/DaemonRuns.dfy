/** What holds in every state the daemon can reach, and along every run. */
module DaemonRuns {
  import opened DaemonState
  import opened DaemonSteps
  import opened DaemonInvariant
  import opened DaemonSafety
  import opened DaemonAdmission
  import opened DaemonCompletion

  // ---- safety --------------------------------------------------------------------

  lemma StepKeeps(g: Config, s: State, e: Event)
    requires Inv(g, s) && Shape(g, s) && Enabled(g, s, e)
    ensures var r := Step(g, s, e); r.Running? ==> Inv(g, r.state)
  {
    hide Inv;
    match e
    case Connect => OpenClientKeeps(g, s);
    case FdArrives(c) => ReceiveFdKeeps(g, s, c);
    case Handshake(c, accepted, fits) => ReplyHandshakeKeeps(g, s, c, accepted, fits);
    case Parsed(c, r) => AcceptRequestKeeps(g, s, c, r);
    case Dispatch(c, o) => DispatchKeeps(g, s, c, o);
    case Reap(id, q) => ReapFinds(g, s, id); ReapKeeps(g, s, id, q);
    case SweepFile(c, k, updates) => TryReleaseFileKeeps(g, s, c, k, updates);
    case SweepBuffer(c, b) => TryReleaseBufferKeeps(g, s, c, b);
    case Disconnect(c) => CloseClientKeeps(g, s, c);
  }

  lemma {:induction false} RunKeeps(g: Config, s: State, events: seq<Event>, s': State)
    requires Inv(g, s) && Reaches(g, s, events, s')
    ensures Inv(g, s')
    decreases |events|
  {
    hide Inv, Step, Enabled;
    if events != [] {
      StepKeeps(g, s, events[0]);
      RunKeeps(g, Step(g, s, events[0]).state, events[1..], s');
    }
  }

  /** States the daemon can be in while its event loop runs. */
  ghost predicate Reachable(g: Config, s: State) {
    ConfigOk(g) && exists events :: Reaches(g, Initial(g), events, s)
  }

  lemma ReachableInv(g: Config, s: State)
    requires Reachable(g, s)
    ensures Inv(g, s)
  {
    hide Inv;
    var events :| Reaches(g, Initial(g), events, s);
    InitialOk(g);
    RunKeeps(g, Initial(g), events, s);
  }

  /** Along the run from `s`, client slot `c` is not fit for reuse before any step, so that it
      belongs to the same connection, alive or gone, all the time. */
  ghost predicate Occupied(g: Config, s: State, events: seq<Event>, c: nat)
    decreases |events|
  {
    events == [] ||
    (&& Shape(g, s) && Enabled(g, s, events[0]) && Step(g, s, events[0]).Running?
     && c < |s.clients| && !Reusable(s.clients[c])
     && Occupied(g, Step(g, s, events[0]).state, events[1..], c))
  }
}
