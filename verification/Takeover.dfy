/** Remote control of desktop tabs: who drives what, and when a remote drive may submit.

`Ties` are the two tables of the hub. Every method keeps them inverse to each other; a drive
re-checks its tie with the tab's turn gate held before it submits.
*/
module Takeover {
  import opened BotRoutes

  /** takeovers: tab -> driving chat; takeoverTabs: chat key -> tab. */
  datatype Ties = Ties(takeovers: map<string, Route>, takeoverTabs: map<string, string>)

  datatype Session = Session(detached: bool, running: bool)

  ghost predicate Inverse(b: Ties) {
    (forall tab | tab in b.takeovers ::
       Key(b.takeovers[tab]) in b.takeoverTabs && b.takeoverTabs[Key(b.takeovers[tab])] == tab) &&
    (forall k | k in b.takeoverTabs :: b.takeoverTabs[k] in b.takeovers && Key(b.takeovers[b.takeoverTabs[k]]) == k)
  }

  /** Only private chats hold tabs. */
  ghost predicate DirectOnly(b: Ties) {
    forall tab | tab in b.takeovers :: b.takeovers[tab].chatType.DM?
  }

  ghost predicate Valid(b: Ties) {
    Inverse(b) && DirectOnly(b)
  }

  function TabOf(b: Ties, route: Route): string {
    if Key(route) in b.takeoverTabs then b.takeoverTabs[Key(route)] else ""
  }

  predicate HeldByOther(b: Ties, tab: string, route: Route) {
    tab in b.takeovers && Key(b.takeovers[tab]) != Key(route)
  }

  predicate CanTake(b: Ties, sessions: map<string, Session>, route: Route, tab: string) {
    route.chatType.DM? && tab in sessions && !sessions[tab].detached && !HeldByOther(b, tab, route)
  }

  function Tied(b: Ties, route: Route, tab: string): Ties {
    var k := Key(route);
    var freed := if k in b.takeoverTabs && b.takeoverTabs[k] != tab then b.takeovers - {b.takeoverTabs[k]} else b.takeovers;
    Ties(freed[tab := route], b.takeoverTabs[k := tab])
  }

  /** Removes both halves of a tie, each by its own key. */
  function Untied(b: Ties, k: string, tab: string): Ties {
    Ties(b.takeovers - {tab}, b.takeoverTabs - {k})
  }

  function Released(b: Ties, route: Route): Ties {
    var k := Key(route);
    if k in b.takeoverTabs then Untied(b, k, b.takeoverTabs[k]) else b
  }

  function Reclaimed(b: Ties, tab: string): Ties {
    if tab in b.takeovers then Untied(b, Key(b.takeovers[tab]), tab) else b
  }

  /** A call of the hub. */
  datatype Op =
    | DoTakeover(route: Route, tab: string, sessions: map<string, Session>)
    | DoRelease(route: Route)
    | DoReclaim(tab: string)
    | DoDrive(route: Route, sessions: map<string, Session>)

  function Apply(b: Ties, op: Op): Ties {
    match op
    case DoTakeover(route, tab, sessions) => if CanTake(b, sessions, route, tab) then Tied(b, route, tab) else b
    case DoRelease(route) => Released(b, route)
    case DoReclaim(tab) => Reclaimed(b, tab)
    case DoDrive(route, sessions) =>
      var tab := TabOf(b, route);
      if tab != "" && (tab !in sessions || sessions[tab].detached) then Released(b, route) else b
  }

  datatype DriveDecision = NoTakeover | AutoReleased | Busy | Drive(tab: string)

  class BotBridgeTies {
    var takeovers: map<string, Route>
    var takeoverTabs: map<string, string>

    function State(): Ties
      reads this
    {
      Ties(takeovers, takeoverTabs)
    }

    constructor ()
      ensures Valid(State()) && takeovers == map[] && takeoverTabs == map[]
    {
      takeovers, takeoverTabs := map[], map[];
    }

    /** Binds a chat to a tab; `released` is the tab the chat drove before, if another. */
    method Takeover(route: Route, tab: string, sessions: map<string, Session>) returns (ok: bool, released: string)
      requires Valid(State())
      modifies this
      ensures Valid(State())
      ensures ok == CanTake(old(State()), sessions, route, tab)
      ensures ok <==> route.chatType.DM? && tab in sessions && !sessions[tab].detached &&
                      (tab in old(takeovers) ==> Key(old(takeovers)[tab]) == Key(route))
      ensures State() == if ok then Tied(old(State()), route, tab) else old(State())
      ensures State() == Apply(old(State()), DoTakeover(route, tab, sessions))
      ensures ok ==> TabOf(State(), route) == tab && takeovers[tab] == route
      ensures released == if ok && TabOf(old(State()), route) != tab then TabOf(old(State()), route) else ""
    {
      released := "";
      if !route.chatType.DM? || tab !in sessions || sessions[tab].detached {
        return false, released;
      }
      if tab in takeovers && Key(takeovers[tab]) != Key(route) {
        return false, released;
      }
      TiedKeepsValid(State(), route, tab);
      var key := Key(route);
      if key in takeoverTabs && takeoverTabs[key] != tab {
        released := takeoverTabs[key];
        takeovers := takeovers - {released};
      }
      takeovers := takeovers[tab := route];
      takeoverTabs := takeoverTabs[key := tab];
      ok := true;
    }

    method Release(route: Route) returns (ok: bool, tab: string)
      requires Valid(State())
      modifies this
      ensures Valid(State()) && State() == Released(old(State()), route) == Apply(old(State()), DoRelease(route))
      ensures ok == (Key(route) in old(takeoverTabs)) && tab == TabOf(old(State()), route)
      ensures Key(route) !in takeoverTabs
    {
      ReleasedKeepsValid(State(), route);
      var key := Key(route);
      ok, tab := key in takeoverTabs, TabOf(State(), route);
      if ok {
        takeoverTabs := takeoverTabs - {key};
        takeovers := takeovers - {tab};
      }
    }

    method ReclaimFromDesktop(tab: string) returns (ok: bool)
      requires Valid(State())
      modifies this
      ensures Valid(State()) && State() == Reclaimed(old(State()), tab) == Apply(old(State()), DoReclaim(tab))
      ensures ok == (tab in old(takeovers)) && tab !in takeovers
    {
      ReclaimedKeepsValid(State(), tab);
      ok := tab in takeovers;
      if ok {
        var route := takeovers[tab];
        takeovers := takeovers - {tab};
        takeoverTabs := takeoverTabs - {Key(route)};
      }
    }

    /** Decides what a chat's plain message does; a lost tab unties the chat. */
    method DriveInput(route: Route, sessions: map<string, Session>) returns (d: DriveDecision)
      requires Valid(State())
      modifies this
      ensures Valid(State())
      ensures var tab := TabOf(old(State()), route);
              d == (if tab == "" then NoTakeover
                    else if tab !in sessions || sessions[tab].detached then AutoReleased
                    else if sessions[tab].running then Busy else Drive(tab)) &&
              State() == if d.AutoReleased? then Released(old(State()), route) else old(State())
      ensures State() == Apply(old(State()), DoDrive(route, sessions))
    {
      var tab := TabOf(State(), route);
      if tab == "" {
        return NoTakeover;
      }
      if tab !in sessions || sessions[tab].detached {
        ReleasedKeepsValid(State(), route);
        takeoverTabs := takeoverTabs - {Key(route)};
        takeovers := takeovers - {tab};
        return AutoReleased;
      }
      if sessions[tab].running {
        return Busy;
      }
      return Drive(tab);
    }
  }

  lemma TiedKeepsValid(b: Ties, route: Route, tab: string)
    requires Valid(b) && route.chatType.DM? && !HeldByOther(b, tab, route)
    ensures Valid(Tied(b, route, tab))
  {
    hide Key;
  }

  lemma ReleasedKeepsValid(b: Ties, route: Route)
    requires Valid(b)
    ensures Valid(Released(b, route))
  {
    hide Key;
    if Key(route) in b.takeoverTabs {
      UntieExact(b, Key(route), b.takeoverTabs[Key(route)]);
    }
  }

  lemma ReclaimedKeepsValid(b: Ties, tab: string)
    requires Valid(b)
    ensures Valid(Reclaimed(b, tab))
  {
    hide Key;
    if tab in b.takeovers {
      UntieExact(b, Key(b.takeovers[tab]), tab);
    }
  }

  /** Untying a key and a tab keeps the tables inverse exactly when the two are tied to each other,
      or neither is tied at all. */
  lemma UntieExact(b: Ties, k: string, tab: string)
    requires Inverse(b)
    ensures Inverse(Untied(b, k, tab)) <==>
            (k in b.takeoverTabs && b.takeoverTabs[k] == tab) || (k !in b.takeoverTabs && tab !in b.takeovers)
  {
    hide Key;
    var u := Untied(b, k, tab);
    if k in b.takeoverTabs && b.takeoverTabs[k] != tab {
      assert b.takeoverTabs[k] in u.takeovers;
    }
    if k !in b.takeoverTabs && tab in b.takeovers {
      assert Key(b.takeovers[tab]) in u.takeoverTabs;
    }
  }

  /** Tabs and chats that have nothing to do with a call keep their ties. */
  lemma OthersKeepTheirTies(b: Ties, route: Route, tab: string, other: string)
    requires Inverse(b) && other in b.takeovers && Key(b.takeovers[other]) != Key(route)
    ensures other != tab ==> Holds(Tied(b, route, tab), b, other) && Holds(Reclaimed(b, tab), b, other)
    ensures Holds(Released(b, route), b, other)
  {
    hide Key;
  }

  /** `other` has the driver it had in `b`. */
  predicate Holds(after: Ties, b: Ties, other: string)
    requires other in b.takeovers
  {
    var k := Key(b.takeovers[other]);
    other in after.takeovers && after.takeovers[other] == b.takeovers[other] && k in after.takeoverTabs && after.takeoverTabs[k] == other
  }

  // ---- Any sequence of calls --------------------------------------------------------------

  function ApplyAll(b: Ties, ops: seq<Op>): Ties {
    if ops == [] then b else Apply(ApplyAll(b, ops[..|ops| - 1]), ops[|ops| - 1])
  }

  /** After any calls the two tables are inverse partial maps that hold private chats only: a tab has
      one driver, a driver one tab. */
  lemma {:induction false} CallsKeepTablesInverse(ops: seq<Op>)
    ensures Valid(ApplyAll(Ties(map[], map[]), ops))
  {
    if ops != [] {
      var b := ApplyAll(Ties(map[], map[]), ops[..|ops| - 1]);
      CallsKeepTablesInverse(ops[..|ops| - 1]);
      match ops[|ops| - 1]
      case DoTakeover(route, tab, sessions) =>
        if CanTake(b, sessions, route, tab) {
          TiedKeepsValid(b, route, tab);
        }
      case DoRelease(route) => ReleasedKeepsValid(b, route);
      case DoReclaim(tab) => ReclaimedKeepsValid(b, tab);
      case DoDrive(route, sessions) => ReleasedKeepsValid(b, route);
    }
  }

  /** The release inside DriveInput acts on a tab read under an earlier lock. When the chat takes
      another tab over in between, the tables part. */
  lemma LateReleaseBreaksInverse(route: Route, oldTab: string, newTab: string)
    requires route.chatType.DM? && oldTab != newTab
    ensures var before := Tied(Ties(map[], map[]), route, oldTab);
            var moved := Tied(before, route, newTab);
            Valid(before) && Valid(moved) && !Inverse(Untied(moved, Key(route), oldTab))
  {
    hide Key;
    var before := Tied(Ties(map[], map[]), route, oldTab);
    TiedKeepsValid(Ties(map[], map[]), route, oldTab);
    TiedKeepsValid(before, route, newTab);
    UntieExact(Tied(before, route, newTab), Key(route), oldTab);
  }
}
