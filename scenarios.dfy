/** Client-side uses of the two components, checked from their contracts
    alone: shutdown of the API client with transactions in flight, and the
    teardown of an owning and of a borrowing Jingle session. */
module Scenarios {

  import opened AnionuServices
  import opened AnionuClient
  import opened JingleSession
  import opened Sequences

  /** Three transactions are registered, one completes (twice), then the
      client stops its workers: the registry ends empty and the remaining
      transactions, now cancelled, dispatch nothing. */
  method ShutdownWithTransactionsInFlight(service: APIService)
  {
    var client := new APIClient();
    var r1 := client.CreateRequest(service);
    var t1 := client.Call(r1);
    var r2 := client.CreateRequest(service);
    var t2 := client.CallAsync(r2);
    var r3 := client.CreateRequest(service);
    var t3 := client.Call(r3);
    assert client.transactions == [t1, t2, t3];

    var events := t2.ProcessCallbacks();
    assert events == [TransactionComplete, APITransactionComplete];
    RemoveFirstAt([t1, t2, t3], t2, 1);
    assert [t1, t2, t3][..1] + [t1, t2, t3][2..] == [t1, t3];
    client.OnTransactionComplete(t2);
    assert client.transactions == [t1, t3];
    RemoveFirstAbsent([t1, t3], t2);
    client.OnTransactionComplete(t2);
    assert client.transactions == [t1, t3];

    client.StopWorkers();
    assert client.transactions == [];
    var late := t1.ProcessCallbacks();
    assert late == [];
    assert client !in t3.completeListeners && t3.cancelled;
  }

  /** A session that owns its source deletes it; one that borrows its source
      leaves it alone. Both end with no sources. */
  method OwnedAndBorrowedTeardown(manager: SessionManager)
  {
    var owned := new PacketDispatcher();
    var borrowed := new PacketDispatcher();
    var owner := new ISession.Create(manager, "alice@example.org", "bob@example.org", "", "k3y");
    assert owner.sid == "k3y";
    var borrower := new ISession.FromStanza(manager, JingleStanza("bob@example.org", "alice@example.org", "s1"));
    // The flag is cleared by the owner of the session; no setter is modelled.
    borrower.destroySources := false;
    owner.AddMediaSource(owned);
    borrower.AddMediaSource(borrowed);

    // Stands for the session's state transitions, which are outside this model.
    owner.state := Terminating;
    borrower.state := Terminating;
    owner.Destroy();
    borrower.Destroy();
    assert owned in owner.destroyed;
    assert borrowed !in borrower.destroyed;
    assert owner.sources == [] && borrower.sources == [];
  }

}
