/** The database object through whole runs: any sequence of requests and chain events, handled one by one. */
module Node {
  import opened Types
  import opened Ledger
  import opened Tables
  import opened AppSessions
  import opened Custody
  import opened Runs
  import opened Broker

  /** One step of a run, carried out by the handler it belongs to. */
  method Handle(db: Database, step: Step)
    modifies db
    ensures db.View() == Apply(old(db.View()), step)
  {
    match step
    case Create(req) =>
      var verdict := HandleCreateApplication(db, req);
    case Close(req) =>
      var verdict := HandleCloseApplication(db, req);
    case Chain(on, ev) =>
      var client := new CustodyClient(db, on);
      client.HandleBlockChainEvent(ev);
  }

  method HandleAll(db: Database, steps: seq<Step>)
    modifies db
    ensures db.View() == Exec(old(db.View()), steps)
  {
    ghost var start := db.View();
    for i := 0 to |steps|
      invariant db.View() == Exec(start, steps[..i])
    {
      assert steps[..i + 1][..i] == steps[..i];
      Handle(db, steps[i]);
    }
    assert steps[..|steps|] == steps;
  }

  /** A node from its first step: what is proved about runs from the empty database holds of its tables. */
  method Replay(assets: AssetTable, steps: seq<Step>) returns (db: Database)
    ensures fresh(db) && db.View() == Exec(Start(assets), steps)
    ensures WellOrdered(assets, steps) ==>
              forall a :: Total(db.rows, a) == ChannelValue(db.View(), a) - Allocated(Start(assets), steps, a)
                                               + Drifted(Start(assets), steps, a)
  {
    db := new Database(assets);
    HandleAll(db, steps);
    if WellOrdered(assets, steps) {
      forall a { Accounting(assets, steps, a); }
    }
  }
}
