/**
 The script's run after sign-in and the inventory fetch: the owner lookup,
 then the update loop the `--function` argument selects, then the report.
 */
module Script {
  import opened Results
  import opened Text
  import opened UserId
  import opened Owners
  import opened DataSources
  import opened Updater

  /** The `--function` argument. */
  datatype Function = Both | Conn

  /** Why a run stops before its report. */
  datatype Abort =
    | OwnerNotFound                   // "does not exist as user in <site>", then exit
    | MultipleOwners                  // "returned multiple users", then exit
    | OwnerIdUnreadable(ExtractError) // IndexError while extracting the id
    | OwnerNameUnbound                // NameError: `new_owner` was never assigned
    | ConnectionMissing(index: nat)   // IndexError at `ds.connections[0]`

  /** The report "<changed> of <totalAvailable> data sources changed", or the abort. */
  datatype RunResult = Completed(changed: nat, totalAvailable: nat) | Aborted(reason: Abort)

  function LookupAbort(e: LookupError): Abort {
    match e
    case NoSuchUser => OwnerNotFound
    case MultipleUsers => MultipleOwners
    case UnreadableUser(x) => OwnerIdUnreadable(x)
  }

  /**
   The owner lookup as written. It runs in both modes, but `new_owner` is
   only assigned in "both" mode: in "conn" mode the filter's lambda fails on
   the first user, and with no users at all the empty result reads as
   "does not exist".
   */
  function OwnerStage(fn: Function, users: seq<User>, newOwner: string): (r: Result<string, Abort>)
    ensures r.Ok? <==> fn == Both && ResolveOwner(users, newOwner).Ok?
    ensures r.Ok? ==> r.value == ResolveOwner(users, newOwner).value
  {
    match fn
    case Conn =>
      if users == [] then Err(OwnerNotFound) else Err(OwnerNameUnbound)
    case Both =>
      match ResolveOwner(users, newOwner)
      case Ok(id) => Ok(id)
      case Err(e) => Err(LookupAbort(e))
  }

  /** What a finished loop reports. */
  function Report(loop: LoopResult, totalAvailable: nat): RunResult {
    match loop
    case Changed(n) => Completed(n, totalAvailable)
    case NoConnection(j) => Aborted(ConnectionMissing(j))
  }

  /** As written, a "conn" run stops at the owner lookup, so no "conn" update is ever made. */
  lemma ConnModeNeverUpdates(users: seq<User>, newOwner: string)
    ensures OwnerStage(Conn, users, newOwner).Err?
    ensures users != [] ==> OwnerStage(Conn, users, newOwner) == Err(OwnerNameUnbound)
  {
  }

  /** The finding's input: a site with one user `ana`, run in "conn" mode. */
  lemma ConnModeCounterexample()
    ensures OwnerStage(Conn, [Ana()], "ana") == Err(OwnerNameUnbound)
    ensures IntendedOwnerStage(Conn, [Ana()], "ana") == Ok(None)
    ensures OwnerStage(Both, [Ana()], "ana") == Ok("42")
  {
    AnaResolves();
  }

  /** A site user as the SDK prints it. */
  function Ana(): User {
    User("ana", "<User 42 name=ana>")
  }

  /** In "both" mode, `ana` resolves to the id 42. */
  lemma AnaResolves()
    ensures ResolveOwner([Ana()], "ana") == Ok("42")
  {
    assert Ana().repr == Tag + [' '] + "42" + [' '] + "name=ana>";
    ExtractFromUserString("42", "name=ana>");
    ResolveOwnerUnique([Ana()], "ana", 0);
  }

  /**
   A run over the fetched `users` and the data-source list `sources`. When
   the lookup stops the run, nothing has been changed and no call issued;
   otherwise the "both" loop runs with the resolved id and its outcome is reported.
   */
  method Run(fn: Function, users: seq<User>, newOwner: string, dsUser: string, dsPw: string,
             totalAvailable: nat, server: Server, sources: array<DataSource>)
    returns (r: RunResult)
    modifies server, sources
    ensures var stage := OwnerStage(fn, users, newOwner);
      stage.Err? ==> r == Aborted(stage.error) && sources[..] == old(sources[..]) && server.log == old(server.log)
    ensures var stage := OwnerStage(fn, users, newOwner);
      stage.Ok? ==>
        var ch := Change(Some(stage.value), dsUser, dsPw);
        && fn == Both
        && sources[..] == After(old(sources[..]), ch)
        && server.log == old(server.log) + Log(old(sources[..]), ch)
        && r == Report(Outcome(old(sources[..])), totalAvailable)
  {
    var stage := OwnerStage(fn, users, newOwner);
    if stage.Err? {
      return Aborted(stage.error);
    }
    var loop := UpdateOwnersAndConnections(server, sources, stage.value, dsUser, dsPw);
    r := Report(loop, totalAvailable);
  }

  /** The owner lookup as evidently intended: only "both" mode needs, and looks up, a new owner. */
  function IntendedOwnerStage(fn: Function, users: seq<User>, newOwner: string): (r: Result<Option<string>, Abort>)
    ensures fn == Conn ==> r == Ok(None)
    ensures fn == Both ==> match OwnerStage(fn, users, newOwner)
      case Ok(id) => r == Ok(Some(id))
      case Err(e) => r == Err(e)
  {
    if fn == Conn then Ok(None)
    else
      match ResolveOwner(users, newOwner)
      case Ok(id) => Ok(Some(id))
      case Err(e) => Err(LookupAbort(e))
  }

  /**
   A run as evidently intended: "conn" mode skips the lookup and runs the
   "conn" loop, so owners stay and only the credentials change.
   */
  method RunIntended(fn: Function, users: seq<User>, newOwner: string, dsUser: string, dsPw: string,
                     totalAvailable: nat, server: Server, sources: array<DataSource>)
    returns (r: RunResult)
    modifies server, sources
    ensures var stage := IntendedOwnerStage(fn, users, newOwner);
      stage.Err? ==> r == Aborted(stage.error) && sources[..] == old(sources[..]) && server.log == old(server.log)
    ensures var stage := IntendedOwnerStage(fn, users, newOwner);
      stage.Ok? ==>
        var ch := Change(stage.value, dsUser, dsPw);
        && (fn == Conn <==> stage.value.None?)
        && sources[..] == After(old(sources[..]), ch)
        && server.log == old(server.log) + Log(old(sources[..]), ch)
        && r == Report(Outcome(old(sources[..])), totalAvailable)
  {
    var stage := IntendedOwnerStage(fn, users, newOwner);
    if stage.Err? {
      return Aborted(stage.error);
    }
    var loop: LoopResult;
    match stage.value {
      case Some(id) =>
        loop := UpdateOwnersAndConnections(server, sources, id, dsUser, dsPw);
      case None =>
        loop := UpdateConnectionsOnly(server, sources, dsUser, dsPw);
    }
    r := Report(loop, totalAvailable);
  }

  function Source(dsType: string): DataSource {
    DataSource("", dsType, "", [Connection("", "", "", false)])
  }

  /** Three data sources typed oracle, sqlserver and oracle: two are changed, in either mode. */
  lemma ThreeSourcesTwoChanged(ch: Change)
    ensures Outcome(Three()) == Changed(2)
    ensures |Log(Three(), ch)| == (if ch.newOwnerId.Some? then 4 else 2)
  {
    ThreeSourcesFacts();
    CallsCount(Three(), ch, 3);
  }

  lemma ThreeSourcesFacts()
    ensures ConnectedUpTo(Three(), 3) && Reach(Three()) == 3
    ensures OracleCount(Three(), 3) == 2
  {
    SourceKinds();
    TwoOfThree(Source("oracle"), Source("sqlserver"), Source("oracle"));
  }

  /** Any three connected sources of kinds Oracle, other, Oracle: the loop passes all three and counts two. */
  lemma TwoOfThree(a: DataSource, b: DataSource, c: DataSource)
    requires |a.connections| > 0 && |b.connections| > 0 && |c.connections| > 0
    requires IsOracle(a) && !IsOracle(b) && IsOracle(c)
    ensures ConnectedUpTo([a, b, c], 3) && Reach([a, b, c]) == 3
    ensures OracleCount([a, b, c], 3) == 2
  {
    var s := [a, b, c];
    ReachAt(s, 3);
    assert OracleCount(s, 1) == 1;
    assert OracleCount(s, 2) == 1;
  }

  function Three(): seq<DataSource> {
    [Source("oracle"), Source("sqlserver"), Source("oracle")]
  }

  /** "oracle" counts as Oracle and "sqlserver" does not. */
  lemma SourceKinds()
    ensures IsOracle(Source("oracle")) && !IsOracle(Source("sqlserver"))
  {
    IsOracleCaseInsensitive(Source("oracle"));
    IsOracleCaseInsensitive(Source("sqlserver"));
  }
}
