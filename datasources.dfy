/**
 Data sources, their connections, the change the update loops apply to each
 Oracle data source, and the remote calls they issue, as functions of the
 list the loops walk.
 */
module DataSources {
  import opened Results
  import opened Text

  /** A connection of a data source; `serverAddress` stands for every field the script leaves alone. */
  datatype Connection = Connection(serverAddress: string, username: string, password: string, embedPassword: bool)

  /** A published data source; `name` stands for every field the script leaves alone. */
  datatype DataSource = DataSource(name: string, dsType: string, ownerId: string, connections: seq<Connection>)

  /** What a loop writes: the new owner id ("both" mode only) and the connection credentials. */
  datatype Change = Change(newOwnerId: Option<string>, username: string, password: string)

  /** A remote call, with the index of the data source in the list and the values sent. */
  datatype Call =
    | UpdateItem(index: nat, item: DataSource)                                  // server.datasources.update(ds)
    | UpdateConnection(index: nat, item: DataSource, connection: Connection)   // server.datasources.update_connection(ds, connection)

  /** `ds.datasource_type.lower() == "oracle"`. */
  predicate IsOracle(ds: DataSource) {
    Lower(ds.dsType) == "oracle"
  }

  /** The type test is a case-insensitive comparison with "oracle". */
  lemma IsOracleCaseInsensitive(ds: DataSource)
    ensures IsOracle(ds) <==>
      |ds.dsType| == 6 && forall k :: 0 <= k < 6 ==> ds.dsType[k] == "oracle"[k] || ds.dsType[k] == "ORACLE"[k]
  {
  }

  /** The first `k` data sources of `s` each have a first connection for `ds.connections[0]` to read. */
  predicate ConnectedUpTo(s: seq<DataSource>, k: nat) {
    k <= |s| && forall j :: 0 <= j < k ==> |s[j].connections| > 0
  }

  function Recredential(c: Connection, ch: Change): Connection {
    c.(username := ch.username, password := ch.password, embedPassword := true)
  }

  function WithOwner(ds: DataSource, ch: Change): DataSource {
    match ch.newOwnerId
    case Some(id) => ds.(ownerId := id)
    case None => ds
  }

  /** One data source after its loop iteration. */
  function Rewire(ds: DataSource, ch: Change): DataSource
    requires |ds.connections| > 0
  {
    if IsOracle(ds) then
      var owned := WithOwner(ds, ch);
      owned.(connections := owned.connections[0 := Recredential(owned.connections[0], ch)])
    else
      ds
  }

  /**
   What one iteration does to a data source: a non-Oracle one is untouched;
   an Oracle one gets the new owner when one is given (and keeps its owner
   otherwise), and its first connection gets the credentials with the password
   embedded, while its name, its type and every later connection stay.
   */
  lemma RewireFields(ds: DataSource, ch: Change)
    requires |ds.connections| > 0
    ensures !IsOracle(ds) ==> Rewire(ds, ch) == ds
    ensures IsOracle(ds) ==>
      var r := Rewire(ds, ch);
      && r.name == ds.name && r.dsType == ds.dsType
      && r.ownerId == (if ch.newOwnerId.Some? then ch.newOwnerId.value else ds.ownerId)
      && |r.connections| == |ds.connections|
      && r.connections[0] == Connection(ds.connections[0].serverAddress, ch.username, ch.password, true)
      && r.connections[1..] == ds.connections[1..]
  {
  }

  /** The calls of one iteration: `update` first ("both" mode only), then `update_connection`. */
  function StepCalls(k: nat, ds: DataSource, ch: Change): seq<Call>
    requires |ds.connections| > 0
  {
    if IsOracle(ds) then
      var done := Rewire(ds, ch);
      (if ch.newOwnerId.Some? then [UpdateItem(k, WithOwner(ds, ch))] else [])
      + [UpdateConnection(k, done, done.connections[0])]
    else
      []
  }

  /** The calls of the first `k` iterations, in list order. */
  function Calls(s: seq<DataSource>, ch: Change, k: nat): seq<Call>
    requires ConnectedUpTo(s, k)
  {
    if k == 0 then [] else Calls(s, ch, k - 1) + StepCalls(k - 1, s[k - 1], ch)
  }

  /** The number of Oracle data sources among the first `k`: the value the counter `i` reaches after `k` iterations. */
  function OracleCount(s: seq<DataSource>, k: nat): nat
    requires k <= |s|
  {
    if k == 0 then 0 else OracleCount(s, k - 1) + (if IsOracle(s[k - 1]) then 1 else 0)
  }

  /** How far a loop gets: the index of the first data source without a connection, or `|s|`. */
  function Reach(s: seq<DataSource>): (n: nat)
    ensures ConnectedUpTo(s, n)
    ensures n < |s| ==> |s[n].connections| == 0
  {
    if s == [] then 0
    else if |s[0].connections| == 0 then 0
    else
      var m := Reach(s[1..]);
      assert forall j :: 1 <= j < m + 1 ==> s[j] == s[1..][j - 1];
      1 + m
  }

  /** A loop's end: the count when it runs through, or the index at which `connections[0]` fails. */
  datatype LoopResult = Changed(count: nat) | NoConnection(index: nat)

  /** The loop's result on the list `s`. */
  function Outcome(s: seq<DataSource>): LoopResult {
    if Reach(s) == |s| then Changed(OracleCount(s, |s|)) else NoConnection(Reach(s))
  }

  /** The list after `k` iterations: the first `k` data sources rewired, the others as they were. */
  function RewiredUpTo(s: seq<DataSource>, ch: Change, k: nat): (r: seq<DataSource>)
    requires ConnectedUpTo(s, k)
    ensures |r| == |s|
  {
    if k == 0 then s else RewiredUpTo(s, ch, k - 1)[k - 1 := Rewire(s[k - 1], ch)]
  }

  /** The list after the loop, which stops at `Reach(s)`. */
  function After(s: seq<DataSource>, ch: Change): seq<DataSource> {
    RewiredUpTo(s, ch, Reach(s))
  }

  /** The calls the loop issues before it finishes or fails. */
  function Log(s: seq<DataSource>, ch: Change): seq<Call> {
    Calls(s, ch, Reach(s))
  }

  /** The count never exceeds `k`, is `k` exactly when all are Oracle, and zero exactly when none is. */
  lemma {:induction false} OracleCountBounds(s: seq<DataSource>, k: nat)
    requires k <= |s|
    ensures OracleCount(s, k) <= k
    ensures OracleCount(s, k) == k <==> forall j :: 0 <= j < k ==> IsOracle(s[j])
    ensures OracleCount(s, k) == 0 <==> forall j :: 0 <= j < k ==> !IsOracle(s[j])
  {
    if k > 0 {
      OracleCountBounds(s, k - 1);
    }
  }

  /** One `update_connection` per Oracle data source, and one `update` more each in "both" mode. */
  lemma {:induction false} CallsCount(s: seq<DataSource>, ch: Change, k: nat)
    requires ConnectedUpTo(s, k)
    ensures |Calls(s, ch, k)| == (if ch.newOwnerId.Some? then 2 else 1) * OracleCount(s, k)
  {
    if k > 0 {
      CallsCount(s, ch, k - 1);
    }
  }

  /** Every call names an Oracle data source among the first `k`, and the calls follow the list's order. */
  lemma {:induction false} CallsInListOrder(s: seq<DataSource>, ch: Change, k: nat)
    requires ConnectedUpTo(s, k)
    ensures forall a :: 0 <= a < |Calls(s, ch, k)| ==>
      Calls(s, ch, k)[a].index < k && IsOracle(s[Calls(s, ch, k)[a].index])
    ensures forall a, b :: 0 <= a < b < |Calls(s, ch, k)| ==> Calls(s, ch, k)[a].index <= Calls(s, ch, k)[b].index
  {
    if k > 0 {
      CallsInListOrder(s, ch, k - 1);
      var c0 := Calls(s, ch, k - 1);
      var st := StepCalls(k - 1, s[k - 1], ch);
      assert Calls(s, ch, k) == c0 + st;
      assert forall a :: 0 <= a < |st| ==> st[a].index == k - 1;
      forall a | 0 <= a < |c0 + st|
        ensures (c0 + st)[a].index < k && IsOracle(s[(c0 + st)[a].index])
        ensures a < |c0| ==> (c0 + st)[a].index < k - 1
        ensures a >= |c0| ==> (c0 + st)[a].index == k - 1
      {
        if a >= |c0| {
          assert (c0 + st)[a] == st[a - |c0|];
        } else {
          assert (c0 + st)[a] == c0[a];
        }
      }
    }
  }

  /**
   Each Oracle data source at `j < k` receives `update_connection` with its
   rewired value, preceded directly by `update` with the new owner in "both" mode.
   */
  lemma {:induction false} CallsCoverOracles(s: seq<DataSource>, ch: Change, k: nat, j: nat) returns (a: nat)
    requires ConnectedUpTo(s, k)
    requires j < k && IsOracle(s[j])
    ensures var done := Rewire(s[j], ch);
      && a < |Calls(s, ch, k)|
      && Calls(s, ch, k)[a] == UpdateConnection(j, done, done.connections[0])
      && (ch.newOwnerId.Some? ==> a > 0 && Calls(s, ch, k)[a - 1] == UpdateItem(j, WithOwner(s[j], ch)))
  {
    var c0 := Calls(s, ch, k - 1);
    var c := Calls(s, ch, k);
    assert c == c0 + StepCalls(k - 1, s[k - 1], ch);
    if j == k - 1 {
      a := StepCovers(c0, c, j, s[j], ch);
    } else {
      a := CallsCoverOracles(s, ch, k - 1, j);
      assert c[a] == c0[a];
      if ch.newOwnerId.Some? {
        assert c[a - 1] == c0[a - 1];
      }
    }
  }

  /** The calls of one Oracle step, appended to any earlier calls, end with that step's connection update. */
  lemma StepCovers(c0: seq<Call>, c: seq<Call>, j: nat, ds: DataSource, ch: Change) returns (a: nat)
    requires |ds.connections| > 0 && IsOracle(ds)
    requires c == c0 + StepCalls(j, ds, ch)
    ensures var done := Rewire(ds, ch);
      && a < |c|
      && c[a] == UpdateConnection(j, done, done.connections[0])
      && (ch.newOwnerId.Some? ==> a > 0 && c[a - 1] == UpdateItem(j, WithOwner(ds, ch)))
  {
    var done := Rewire(ds, ch);
    var st := StepCalls(j, ds, ch);
    var last := UpdateConnection(j, done, done.connections[0]);
    a := |c| - 1;
    if ch.newOwnerId.Some? {
      assert st == [UpdateItem(j, WithOwner(ds, ch)), last];
      assert c[a - 1] == st[0];
    } else {
      assert st == [last];
    }
    assert c[a] == last;
  }

  /** After `k` iterations each of the first `k` data sources is rewired and every later one is as it was. */
  lemma {:induction false} RewiredUpToAt(s: seq<DataSource>, ch: Change, k: nat, j: nat)
    requires ConnectedUpTo(s, k) && j < |s|
    ensures RewiredUpTo(s, ch, k)[j] == if j < k then Rewire(s[j], ch) else s[j]
  {
    if k > 0 && j != k - 1 {
      RewiredUpToAt(s, ch, k - 1, j);
    }
  }

  /**
   The loop's effect on the list: non-Oracle data sources and those from the
   failing index on are as they were; the reached Oracle ones are rewired.
   */
  lemma AfterEffect(s: seq<DataSource>, ch: Change, j: nat)
    requires j < |s|
    ensures |After(s, ch)| == |s|
    ensures j < Reach(s) ==> After(s, ch)[j] == Rewire(s[j], ch)
    ensures !IsOracle(s[j]) || j >= Reach(s) ==> After(s, ch)[j] == s[j]
  {
    RewiredUpToAt(s, ch, Reach(s), j);
  }

  /** What one more iteration adds to the state after `k` of them. */
  lemma LoopStep(s: seq<DataSource>, ch: Change, k: nat)
    requires ConnectedUpTo(s, k) && k < |s| && |s[k].connections| > 0
    ensures ConnectedUpTo(s, k + 1)
    ensures RewiredUpTo(s, ch, k)[k] == s[k]
    ensures RewiredUpTo(s, ch, k + 1) == RewiredUpTo(s, ch, k)[k := Rewire(s[k], ch)]
    ensures Calls(s, ch, k + 1) == Calls(s, ch, k) + StepCalls(k, s[k], ch)
    ensures OracleCount(s, k + 1) == OracleCount(s, k) + (if IsOracle(s[k]) then 1 else 0)
  {
    RewiredUpToAt(s, ch, k, k);
  }

  /** When every data source has a connection, the loop runs through and reports the Oracle count. */
  lemma OutcomeWhenConnected(s: seq<DataSource>)
    requires ConnectedUpTo(s, |s|)
    ensures Outcome(s) == Changed(OracleCount(s, |s|))
  {
  }

  /** A loop that has passed `k` data sources and stops at `k` has reached `Reach(s)`. */
  lemma ReachAt(s: seq<DataSource>, k: nat)
    requires ConnectedUpTo(s, k)
    requires k == |s| || |s[k].connections| == 0
    ensures Reach(s) == k
  {
  }

  /** A loop that finds a connection at `k`, after `k` connected data sources, has not yet reached its end. */
  lemma ReachBeyond(s: seq<DataSource>, k: nat)
    requires ConnectedUpTo(s, k) && k < |s| && |s[k].connections| > 0
    ensures k < Reach(s)
  {
  }
}
