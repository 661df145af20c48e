/**
 * Runs of `WalletController` that pin down behaviour spanning several calls:
 * a second `disconnect`, a replaced WalletConnect controller whose session
 * subscription outlives it, and the startup interval that keeps ticking
 * after a connection.
 */
module WalletScenarios {
  import opened Wrappers
  import opened WalletProvider

  /** `disconnect` twice in a row: the second call runs no disposer, and the
      state is the one the first call left. */
  method DisconnectTwice(c: WalletController)
    requires c.Valid()
    modifies c
    ensures c.Valid()
    ensures c.log == old(c.log) + ExtensionDisposal(old(c.disableExtension)) + WalletConnectDisposal(old(c.disableWalletConnect))
    ensures c.Published() == NotConnected(c.defaultNetwork)
    ensures c.disableExtension == None && c.disableWalletConnect == None && c.walletConnect == None
    ensures c.subscriptions ==
              Release(Release(old(c.subscriptions), old(c.disableExtension)),
                      if old(c.disableWalletConnect).Some? then Some(old(c.disableWalletConnect).value.subscription) else None)
    ensures c.raceSubscription == old(c.raceSubscription) && c.nextSubscription == old(c.nextSubscription)
  {
    c.Disconnect();
    ghost var once := c.log;
    ghost var subs := c.subscriptions;
    c.Disconnect();
    assert c.log == once + [] + [];
    assert c.subscriptions == subs;
  }

  /** Replacing controller `a` by `b` disconnects `a` (the one call this
      adds to the log) but leaves its session subscription live: a later emission of `a`'s session is still
      published, although the slot holds `b`. */
  method ReplacedSessionStillPublishes(c: WalletController, b: ControllerId, session: Session)
    requires c.Valid() && c.walletConnect.Some?
    modifies c
    ensures c.Valid()
    ensures c.walletConnect == Some(b)
    ensures c.log == old(c.log) + [ControllerDisconnected(old(c.walletConnect).value)]
    ensures old(c.disableWalletConnect).value.subscription in c.SessionSubscriptions(old(c.walletConnect).value)
    ensures c.Published() == FromSession(session, c.defaultNetwork, c.walletConnectChainIds)
  {
    var a := c.walletConnect.value;
    var k := c.disableWalletConnect.value.subscription;
    c.EnableWalletConnect(b);
    assert c.log[|c.log| - 1] == ControllerDisconnected(a);
    assert k in c.SessionSubscriptions(a);
    c.OnSessionUpdate(a, session);
  }

  /** On desktop Chrome with no session to restore: the interval wins the
      race, the user then connects the extension, which reports a valid
      address; the next tick still publishes WALLET_NOT_CONNECTED, while the
      network and the address of the connection stay published. */
  method TimerOutlivesConnection(defaultNetwork: NetworkInfo, chainIds: map<int, NetworkInfo>,
                                 validate: string -> bool, report: ExtensionReport)
    returns (c: WalletController)
    requires report.status == ExtensionWalletConnected
    requires report.walletAddress.Some? && validate(report.walletAddress.value)
    ensures c.Valid()
    ensures c.status == WalletNotConnected
    ensures c.network == Some(report.networkInfo) && c.walletAddress == report.walletAddress
    ensures c.disableExtension.Some?
  {
    c := new WalletController(defaultNetwork, chainIds, validate, None, true);
    c.OnRaceTick();
    assert c.status == WalletNotConnected;
    c.ConnectToExtension(true);
    assert c.disableExtension.value in c.ExtensionSubscriptions();
    c.OnExtensionUpdate(report);
    assert c.Published() == Snapshot(WalletConnected, Some(report.networkInfo), report.walletAddress);
    c.OnRaceTick();
  }
}
