/**
 The two update loops of the script, over the site's data-source list, and
 the server handle whose update calls they issue.
 */
module Updater {
  import opened Results
  import opened Text
  import opened DataSources

  /** The server handle; its remote update calls are recorded, in order, in `log`. */
  class Server {
    var log: seq<Call>

    constructor ()
      ensures log == []
    {
      log := [];
    }

    /** `server.datasources.update(item)`. */
    method Update(index: nat, item: DataSource)
      modifies this
      ensures log == old(log) + [UpdateItem(index, item)]
    {
      log := log + [UpdateItem(index, item)];
    }

    /** `server.datasources.update_connection(item, connection)`. */
    method UpdateConnection(index: nat, item: DataSource, connection: Connection)
      modifies this
      ensures log == old(log) + [Call.UpdateConnection(index, item, connection)]
    {
      log := log + [Call.UpdateConnection(index, item, connection)];
    }
  }

  /**
   The "both" loop: every Oracle data source gets the new owner, pushed with
   `update`, then the new credentials on its first connection with the
   password embedded, pushed with `update_connection`. The loop stops at the
   first data source without a connection, leaving what it changed so far.
   */
  method UpdateOwnersAndConnections(server: Server, sources: array<DataSource>, newOwnerId: string, dsUser: string, dsPw: string)
    returns (r: LoopResult)
    modifies server, sources
    ensures var ch := Change(Some(newOwnerId), dsUser, dsPw);
      && sources[..] == After(old(sources[..]), ch)
      && server.log == old(server.log) + Log(old(sources[..]), ch)
      && r == Outcome(old(sources[..]))
  {
    ghost var s := sources[..];
    ghost var ch := Change(Some(newOwnerId), dsUser, dsPw);
    var i := 0;
    var k := 0;
    while k < sources.Length
      invariant k <= sources.Length && ConnectedUpTo(s, k)
      invariant sources[..] == RewiredUpTo(s, ch, k)
      invariant server.log == old(server.log) + Calls(s, ch, k)
      invariant i == OracleCount(s, k)
    {
      RewiredUpToAt(s, ch, k, k);
      if |sources[k].connections| == 0 {
        ReachAt(s, k);
        return NoConnection(k);
      }
      LoopStep(s, ch, k);
      var ds := sources[k];
      var connection := ds.connections[0];
      if Lower(ds.dsType) == "oracle" {
        ds := ds.(ownerId := newOwnerId);
        sources[k] := ds;
        server.Update(k, ds);
        connection := connection.(username := dsUser, password := dsPw, embedPassword := true);
        ds := ds.(connections := ds.connections[0 := connection]);
        sources[k] := ds;
        server.UpdateConnection(k, ds, connection);
        i := i + 1;
        OracleStep(k, s[k], ch);
      }
      assert old(server.log) + Calls(s, ch, k) + StepCalls(k, s[k], ch)
        == old(server.log) + (Calls(s, ch, k) + StepCalls(k, s[k], ch));
      k := k + 1;
    }
    ReachAt(s, k);
    return Changed(i);
  }

  /**
   The "conn" loop: every Oracle data source gets the new credentials on its
   first connection with the password embedded, pushed with
   `update_connection`; owners are not touched.
   */
  method UpdateConnectionsOnly(server: Server, sources: array<DataSource>, dsUser: string, dsPw: string)
    returns (r: LoopResult)
    modifies server, sources
    ensures var ch := Change(None, dsUser, dsPw);
      && sources[..] == After(old(sources[..]), ch)
      && server.log == old(server.log) + Log(old(sources[..]), ch)
      && r == Outcome(old(sources[..]))
  {
    ghost var s := sources[..];
    ghost var ch := Change(None, dsUser, dsPw);
    var i := 0;
    var k := 0;
    while k < sources.Length
      invariant k <= sources.Length && ConnectedUpTo(s, k)
      invariant sources[..] == RewiredUpTo(s, ch, k)
      invariant server.log == old(server.log) + Calls(s, ch, k)
      invariant i == OracleCount(s, k)
    {
      RewiredUpToAt(s, ch, k, k);
      if |sources[k].connections| == 0 {
        ReachAt(s, k);
        return NoConnection(k);
      }
      LoopStep(s, ch, k);
      var ds := sources[k];
      var connection := ds.connections[0];
      if Lower(ds.dsType) == "oracle" {
        connection := connection.(username := dsUser, password := dsPw, embedPassword := true);
        ds := ds.(connections := ds.connections[0 := connection]);
        sources[k] := ds;
        server.UpdateConnection(k, ds, connection);
        i := i + 1;
        OracleStep(k, s[k], ch);
      }
      assert old(server.log) + Calls(s, ch, k) + StepCalls(k, s[k], ch)
        == old(server.log) + (Calls(s, ch, k) + StepCalls(k, s[k], ch));
      k := k + 1;
    }
    ReachAt(s, k);
    return Changed(i);
  }

  /** One iteration on an Oracle data source, spelled out the way the loops perform it. */
  lemma OracleStep(k: nat, ds: DataSource, ch: Change)
    requires IsOracle(ds) && |ds.connections| > 0
    ensures var owned := WithOwner(ds, ch);
      var connection := owned.connections[0].(username := ch.username, password := ch.password, embedPassword := true);
      var done := owned.(connections := owned.connections[0 := connection]);
      && Rewire(ds, ch) == done
      && StepCalls(k, ds, ch) ==
           (if ch.newOwnerId.Some? then [UpdateItem(k, owned)] else []) + [Call.UpdateConnection(k, done, connection)]
  {
  }
}
