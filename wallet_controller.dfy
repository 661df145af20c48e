/**
 * `WalletController` (packages/src/@anchor-protocol/wallet-provider2/provider.ts):
 * arbitrates between the Chrome extension and a WalletConnect session and
 * republishes the active one's status, network and wallet address.
 *
 * The rxjs plumbing is made explicit. Every live subscription is an entry of
 * `subscriptions`, keyed by a fresh number and tagged with what it listens to.
 * Each push from a transport, and each tick of the startup timer, is a method
 * call ("an event"). The event reaches the controller only through a live
 * subscription that listens to its source. Calls the controller makes on
 * transports (`disconnect()`, `unsubscribe()`) are recorded, in order, in the
 * ghost `log`.
 */
module WalletProvider {
  import opened Wrappers

  /** The controller's published status (`WalletStatus`). */
  datatype WalletStatus = Initializing | WalletNotConnected | WalletConnected

  /** A network description. `name` and `chainID` are what the controller
      itself reads; `extra` holds whatever other fields a
      `StationNetworkInfo` carries. */
  datatype NetworkInfo = NetworkInfo(name: string, chainID: string, extra: map<string, string>)

  /** `{ name, chainID }` of a network: a copy without the other fields. */
  function NameAndChainId(n: NetworkInfo): NetworkInfo {
    NetworkInfo(n.name, n.chainID, map[])
  }

  /** What the extension reports as its status. The controller tests only for
      WALLET_CONNECTED; every other status is `ExtensionOther`. */
  datatype ChromeExtensionStatus = ExtensionWalletConnected | ExtensionOther(name: string)

  /** One emission of `combineLatest([status, networkInfo, walletAddress])`;
      the address is `None` when it is not a string. */
  datatype ExtensionReport = ExtensionReport(status: ChromeExtensionStatus, networkInfo: NetworkInfo, walletAddress: Option<string>)

  /** One emission of a WalletConnect session. */
  datatype Session = SessionConnected(chainId: int, terraAddress: string) | SessionOther(name: string)

  /** A WalletConnect controller, by identity. */
  type ControllerId = nat

  /** What `connectWalletIfSessionExists` restored: a controller and its latest session. */
  datatype DraftWalletConnect = DraftWalletConnect(controller: ControllerId, latest: Session)

  /** What a live subscription listens to. The startup race starts as
      `RacePending`; once the 10 s interval wins it, it is `RaceTimer`. */
  datatype Source = ExtensionStream | SessionStream(controller: ControllerId) | RacePending | RaceTimer

  /** The state the `disableWalletConnect` closure captures: the controller
      it was made for and that controller's session subscription. */
  datatype WalletConnectHandle = WalletConnectHandle(controller: ControllerId, subscription: nat)

  /** Calls the controller makes on transports. */
  datatype SideEffect = Unsubscribed(subscription: nat) | ControllerDisconnected(controller: ControllerId)

  /** Where `post` sends a transaction, or the error it throws. */
  datatype PostRoute<T> = ViaExtension(tx: T) | ViaWalletConnect(controller: ControllerId, tx: T) | PostError(message: string)

  const WALLET_NOT_CONNECTED := "Wallet not connected!"
  const NO_CONNECTED_SESSION := "Can't post tx. there is no connected session!"

  /** The published triple `_status` / `_network` / `_walletAddress`. The
      network is `None` where the source publishes `undefined`. */
  datatype Snapshot = Snapshot(status: WalletStatus, network: Option<NetworkInfo>, walletAddress: Option<string>)

  /** The triple every reset publishes. */
  function NotConnected(defaultNetwork: NetworkInfo): Snapshot {
    Snapshot(WalletNotConnected, Some(defaultNetwork), None)
  }

  /** What an extension subscription publishes for one report: the
      extension's network and address only when it says WALLET_CONNECTED and
      the address is a string that `validate` accepts, the reset otherwise. */
  function FromExtension(r: ExtensionReport, defaultNetwork: NetworkInfo, validate: string -> bool): (s: Snapshot)
    ensures s.status == WalletConnected <==>
            r.status == ExtensionWalletConnected && r.walletAddress.Some? && validate(r.walletAddress.value)
    ensures s.status == WalletConnected ==> s == Snapshot(WalletConnected, Some(r.networkInfo), r.walletAddress)
    ensures s.status != WalletConnected ==> s == NotConnected(defaultNetwork)
  {
    if r.status == ExtensionWalletConnected && r.walletAddress.Some? && validate(r.walletAddress.value) then
      Snapshot(WalletConnected, Some(r.networkInfo), r.walletAddress)
    else
      NotConnected(defaultNetwork)
  }

  /** What a session subscription publishes: for CONNECTED, the network the
      chain id maps to (`None` when the map has no entry) and the session's
      address, not validated; the reset for every other status. */
  function FromSession(s: Session, defaultNetwork: NetworkInfo, chainIds: map<int, NetworkInfo>): (p: Snapshot)
    ensures p.status == WalletConnected <==> s.SessionConnected?
    ensures s.SessionConnected? ==> p.walletAddress == Some(s.terraAddress)
    ensures s.SessionConnected? ==> (p.network.Some? <==> s.chainId in chainIds)
    ensures s.SessionConnected? && s.chainId in chainIds ==> p.network == Some(chainIds[s.chainId])
    ensures !s.SessionConnected? ==> p == NotConnected(defaultNetwork)
  {
    match s
    case SessionConnected(chainId, address) =>
      Snapshot(WalletConnected, if chainId in chainIds then Some(chainIds[chainId]) else None, Some(address))
    case SessionOther(_) => NotConnected(defaultNetwork)
  }

  /** The calls the `disableExtension` closure makes, if it is set. */
  function ExtensionDisposal(h: Option<nat>): seq<SideEffect> {
    if h.Some? then [Unsubscribed(h.value)] else []
  }

  /** The calls the `disableWalletConnect` closure makes, if it is set. */
  function WalletConnectDisposal(h: Option<WalletConnectHandle>): seq<SideEffect> {
    if h.Some? then [ControllerDisconnected(h.value.controller), Unsubscribed(h.value.subscription)] else []
  }

  /** `subs` without the subscription that handle `h` disposes, if any. */
  function Release(subs: map<nat, Source>, h: Option<nat>): map<nat, Source> {
    if h.Some? then subs - {h.value} else subs
  }

  class WalletController {
    /** `options.defaultNetwork` */
    const defaultNetwork: NetworkInfo
    /** `options.walletConnectChainIds` */
    const walletConnectChainIds: map<int, NetworkInfo>
    /** `AccAddress.validate` */
    const validate: string -> bool

    var walletConnect: Option<ControllerId>
    /** The `disableExtension` closure, by the subscription it unsubscribes. */
    var disableExtension: Option<nat>
    /** The `disableWalletConnect` closure, by what it captures. */
    var disableWalletConnect: Option<WalletConnectHandle>

    var status: WalletStatus
    var network: Option<NetworkInfo>
    var walletAddress: Option<string>

    /** The live subscriptions and the next fresh key. */
    var subscriptions: map<nat, Source>
    var nextSubscription: nat
    /** `extensionConnectionCheckSubscription`, the startup race, if started. */
    var raceSubscription: Option<nat>

    ghost var log: seq<SideEffect>

    ghost function Published(): Snapshot
      reads this
    {
      Snapshot(status, network, walletAddress)
    }

    /** The live subscriptions to the extension's streams. */
    ghost function ExtensionSubscriptions(): set<nat>
      reads this
    {
      set k | k in subscriptions && subscriptions[k] == ExtensionStream
    }

    /** The live subscriptions to a controller's session. */
    ghost function SessionSubscriptions(c: ControllerId): set<nat>
      reads this
    {
      set k | k in subscriptions && subscriptions[k] == SessionStream(c)
    }

    /** The controller's invariant: at most one transport handle is set; the
        WalletConnect slot is set exactly when its handle is, and holds the
        controller the handle was made for; each handle names a live
        subscription of its own transport; the race, if any, is the one race
        subscription; a published CONNECTED always comes with an address;
        and until a first write the triple is the initial one. */
    ghost predicate Valid()
      reads this
    {
      && (forall k :: k in subscriptions ==> k < nextSubscription)
      && !(disableExtension.Some? && disableWalletConnect.Some?)
      && (walletConnect.Some? <==> disableWalletConnect.Some?)
      && (disableWalletConnect.Some? ==>
            && walletConnect == Some(disableWalletConnect.value.controller)
            && disableWalletConnect.value.subscription in subscriptions
            && subscriptions[disableWalletConnect.value.subscription] == SessionStream(disableWalletConnect.value.controller))
      && (disableExtension.Some? ==>
            disableExtension.value in subscriptions && subscriptions[disableExtension.value] == ExtensionStream)
      && (forall k :: k in subscriptions && subscriptions[k] in {RacePending, RaceTimer} ==> raceSubscription == Some(k))
      && (raceSubscription.Some? ==> raceSubscription.value < nextSubscription)
      && (raceSubscription.Some? && raceSubscription.value in subscriptions ==>
            subscriptions[raceSubscription.value] in {RacePending, RaceTimer})
      && (status == WalletConnected ==> walletAddress.Some?)
      && (status == Initializing ==> network == Some(NameAndChainId(defaultNetwork)) && walletAddress == None)
    }

    /** The constructor and its startup branch. `draft` is what
        `connectWalletIfSessionExists` restored and `desktopChrome` what
        `isDesktopChrome()` answers. Exactly one branch runs: a restored
        session whose latest status is CONNECTED is enabled and no race
        starts; otherwise on desktop Chrome the race starts; otherwise the
        status becomes WALLET_NOT_CONNECTED. Network and address stay the
        initial ones in every branch. */
    constructor (defaultNetwork: NetworkInfo, walletConnectChainIds: map<int, NetworkInfo>, validate: string -> bool,
                 draft: Option<DraftWalletConnect>, desktopChrome: bool)
      ensures Valid()
      ensures this.defaultNetwork == defaultNetwork && this.walletConnectChainIds == walletConnectChainIds
      ensures this.validate == validate
      ensures network == Some(NameAndChainId(defaultNetwork)) && walletAddress == None
      ensures disableExtension == None && log == []
      ensures nextSubscription == |subscriptions|
      ensures draft.Some? && draft.value.latest.SessionConnected? ==>
                && status == Initializing
                && walletConnect == Some(draft.value.controller)
                && disableWalletConnect == Some(WalletConnectHandle(draft.value.controller, 0))
                && subscriptions == map[0 := SessionStream(draft.value.controller)]
                && raceSubscription == None
      ensures !(draft.Some? && draft.value.latest.SessionConnected?) && desktopChrome ==>
                && status == Initializing
                && walletConnect == None && disableWalletConnect == None
                && subscriptions == map[0 := RacePending]
                && raceSubscription == Some(0)
      ensures !(draft.Some? && draft.value.latest.SessionConnected?) && !desktopChrome ==>
                && status == WalletNotConnected
                && walletConnect == None && disableWalletConnect == None
                && subscriptions == map[]
                && raceSubscription == None
    {
      this.defaultNetwork := defaultNetwork;
      this.walletConnectChainIds := walletConnectChainIds;
      this.validate := validate;
      status := Initializing;
      network := Some(NameAndChainId(defaultNetwork));
      walletAddress := None;
      walletConnect := None;
      disableExtension := None;
      disableWalletConnect := None;
      subscriptions := map[];
      nextSubscription := 0;
      raceSubscription := None;
      log := [];
      new;
      if draft.Some? && draft.value.latest.SessionConnected? {
        EnableWalletConnect(draft.value.controller);
      } else if desktopChrome {
        var k := Subscribe(RacePending);
        raceSubscription := Some(k);
      } else {
        status := WalletNotConnected;
      }
    }

    /** Opens a subscription to `source` under a fresh key. */
    method Subscribe(source: Source) returns (k: nat)
      modifies this
      ensures k == old(nextSubscription) && nextSubscription == k + 1
      ensures subscriptions == old(subscriptions)[k := source]
      ensures walletConnect == old(walletConnect) && disableExtension == old(disableExtension)
      ensures disableWalletConnect == old(disableWalletConnect) && raceSubscription == old(raceSubscription)
      ensures Published() == old(Published()) && log == old(log)
    {
      k := nextSubscription;
      subscriptions := subscriptions[k := source];
      nextSubscription := nextSubscription + 1;
    }

    /** Runs the `disableExtension` closure: unsubscribes the extension
        subscription it was made for. */
    method RunDisableExtension()
      requires disableExtension.Some?
      modifies this
      ensures subscriptions == old(subscriptions) - {old(disableExtension).value}
      ensures log == old(log) + [Unsubscribed(old(disableExtension).value)]
      ensures walletConnect == old(walletConnect) && disableExtension == old(disableExtension)
      ensures disableWalletConnect == old(disableWalletConnect) && raceSubscription == old(raceSubscription)
      ensures nextSubscription == old(nextSubscription) && Published() == old(Published())
    {
      var k := disableExtension.value;
      subscriptions := subscriptions - {k};
      log := log + [Unsubscribed(k)];
    }

    /** Runs the `disableWalletConnect` closure: disconnects the controller it
        was made for, clears the WalletConnect slot, then unsubscribes that
        controller's session subscription. */
    method RunDisableWalletConnect()
      requires disableWalletConnect.Some?
      modifies this
      ensures walletConnect == None
      ensures subscriptions == old(subscriptions) - {old(disableWalletConnect).value.subscription}
      ensures log == old(log) + WalletConnectDisposal(old(disableWalletConnect))
      ensures disableExtension == old(disableExtension) && disableWalletConnect == old(disableWalletConnect)
      ensures raceSubscription == old(raceSubscription)
      ensures nextSubscription == old(nextSubscription) && Published() == old(Published())
    {
      var h := disableWalletConnect.value;
      log := log + [ControllerDisconnected(h.controller)];
      walletConnect := None;
      subscriptions := subscriptions - {h.subscription};
      log := log + [Unsubscribed(h.subscription)];
    }

    /** `enableExtension`: disposes the WalletConnect handle, if set, then
        subscribes to the extension and stores a new `disableExtension`. A
        previous extension subscription is neither disposed nor forgotten: it
        stays live. Nothing is published until the extension emits. */
    method EnableExtension()
      requires Valid()
      modifies this
      ensures Valid()
      ensures walletConnect == None && disableWalletConnect == None
      ensures disableExtension == Some(old(nextSubscription))
      ensures subscriptions ==
                Release(old(subscriptions), if old(disableWalletConnect).Some? then Some(old(disableWalletConnect).value.subscription) else None)
                [old(nextSubscription) := ExtensionStream]
      ensures ExtensionSubscriptions() == old(ExtensionSubscriptions()) + {old(nextSubscription)}
      ensures old(nextSubscription) !in old(ExtensionSubscriptions())
      ensures log == old(log) + WalletConnectDisposal(old(disableWalletConnect))
      ensures nextSubscription == old(nextSubscription) + 1
      ensures raceSubscription == old(raceSubscription) && Published() == old(Published())
    {
      if disableWalletConnect.Some? {
        RunDisableWalletConnect();
        disableWalletConnect := None;
      }
      var k := Subscribe(ExtensionStream);
      disableExtension := Some(k);
    }

    /** `enableWalletConnect(wc)`: disposes the extension handle, if set;
        disconnects the controller in the slot, if any, without unsubscribing
        its session subscription; stores `wc`, subscribes to its session and
        stores a new `disableWalletConnect`. Nothing is published until the
        session emits. */
    method EnableWalletConnect(wc: ControllerId)
      requires Valid()
      modifies this
      ensures Valid()
      ensures walletConnect == Some(wc) && disableExtension == None
      ensures disableWalletConnect == Some(WalletConnectHandle(wc, old(nextSubscription)))
      ensures subscriptions == Release(old(subscriptions), old(disableExtension))[old(nextSubscription) := SessionStream(wc)]
      ensures log == old(log) + ExtensionDisposal(old(disableExtension)) +
                     (if old(walletConnect).Some? then [ControllerDisconnected(old(walletConnect).value)] else [])
      ensures nextSubscription == old(nextSubscription) + 1
      ensures raceSubscription == old(raceSubscription) && Published() == old(Published())
    {
      if disableExtension.Some? {
        RunDisableExtension();
        disableExtension := None;
      }
      if walletConnect.Some? {
        log := log + [ControllerDisconnected(walletConnect.value)];
      }
      walletConnect := Some(wc);
      var k := Subscribe(SessionStream(wc));
      disableWalletConnect := Some(WalletConnectHandle(wc, k));
    }

    /** `connectToExtension`, once `extension.connect()` has resolved to
        `success`: enables the extension on success, does nothing otherwise. */
    method ConnectToExtension(success: bool)
      requires Valid()
      modifies this
      ensures Valid()
      ensures !success ==> subscriptions == old(subscriptions) && log == old(log)
      ensures !success ==> walletConnect == old(walletConnect) && disableExtension == old(disableExtension)
      ensures !success ==> disableWalletConnect == old(disableWalletConnect) && nextSubscription == old(nextSubscription)
      ensures success ==> walletConnect == None && disableWalletConnect == None
      ensures success ==> disableExtension == Some(old(nextSubscription))
      ensures success ==>
                subscriptions ==
                  Release(old(subscriptions), if old(disableWalletConnect).Some? then Some(old(disableWalletConnect).value.subscription) else None)
                  [old(nextSubscription) := ExtensionStream]
      ensures success ==> log == old(log) + WalletConnectDisposal(old(disableWalletConnect))
      ensures success ==> nextSubscription == old(nextSubscription) + 1
      ensures raceSubscription == old(raceSubscription) && Published() == old(Published())
    {
      if success {
        EnableExtension();
      }
    }

    /** `connectToWalletConnect`, with `wc` the controller `connectWallet`
        creates: enables it. */
    method ConnectToWalletConnect(wc: ControllerId)
      requires Valid()
      modifies this
      ensures Valid()
      ensures walletConnect == Some(wc) && disableExtension == None
      ensures disableWalletConnect == Some(WalletConnectHandle(wc, old(nextSubscription)))
      ensures subscriptions == Release(old(subscriptions), old(disableExtension))[old(nextSubscription) := SessionStream(wc)]
      ensures log == old(log) + ExtensionDisposal(old(disableExtension)) +
                     (if old(walletConnect).Some? then [ControllerDisconnected(old(walletConnect).value)] else [])
      ensures nextSubscription == old(nextSubscription) + 1
      ensures raceSubscription == old(raceSubscription) && Published() == old(Published())
    {
      EnableWalletConnect(wc);
    }

    /** `disconnect`: runs each set disposer once, clears both handles and
        publishes the reset triple. The startup race is left alone. */
    method Disconnect()
      requires Valid()
      modifies this
      ensures Valid()
      ensures disableExtension == None && disableWalletConnect == None && walletConnect == None
      ensures Published() == NotConnected(defaultNetwork)
      ensures log == old(log) + ExtensionDisposal(old(disableExtension)) + WalletConnectDisposal(old(disableWalletConnect))
      ensures subscriptions ==
                Release(Release(old(subscriptions), old(disableExtension)),
                        if old(disableWalletConnect).Some? then Some(old(disableWalletConnect).value.subscription) else None)
      ensures nextSubscription == old(nextSubscription) && raceSubscription == old(raceSubscription)
    {
      if disableExtension.Some? {
        RunDisableExtension();
      }
      disableExtension := None;
      if disableWalletConnect.Some? {
        RunDisableWalletConnect();
      }
      disableWalletConnect := None;
      status, network, walletAddress := WalletNotConnected, Some(defaultNetwork), None;
    }

    /** `post(tx)`: throws "Wallet not connected!" when neither handle is set;
        goes to the extension when its handle is set, else to the controller
        in the WalletConnect slot; under the invariant the remaining error
        cannot happen. */
    method Post<T>(tx: T) returns (r: PostRoute<T>)
      ensures r == PostError(WALLET_NOT_CONNECTED) <==> disableExtension.None? && disableWalletConnect.None?
      ensures disableExtension.Some? ==> r == ViaExtension(tx)
      ensures disableExtension.None? && disableWalletConnect.Some? && walletConnect.Some? ==>
                r == ViaWalletConnect(walletConnect.value, tx)
      ensures disableExtension.None? && disableWalletConnect.Some? && walletConnect.None? ==>
                r == PostError(NO_CONNECTED_SESSION)
      ensures Valid() ==> r != PostError(NO_CONNECTED_SESSION)
    {
      if disableExtension.None? && disableWalletConnect.None? {
        return PostError(WALLET_NOT_CONNECTED);
      }
      if disableExtension.Some? {
        r := ViaExtension(tx);
      } else if walletConnect.Some? {
        r := ViaWalletConnect(walletConnect.value, tx);
      } else {
        r := PostError(NO_CONNECTED_SESSION);
      }
    }

    /** The extension emits `report`. Every live extension subscription
        publishes the same re-validated triple; with none, nothing changes. */
    method OnExtensionUpdate(report: ExtensionReport)
      requires Valid()
      modifies this
      ensures Valid()
      ensures old(ExtensionSubscriptions()) != {} ==> Published() == FromExtension(report, defaultNetwork, validate)
      ensures old(ExtensionSubscriptions()) == {} ==> Published() == old(Published())
      ensures old(ExtensionSubscriptions()) != {} && status == WalletConnected ==>
                walletAddress.Some? && validate(walletAddress.value)
      ensures subscriptions == old(subscriptions) && nextSubscription == old(nextSubscription)
      ensures walletConnect == old(walletConnect) && disableExtension == old(disableExtension)
      ensures disableWalletConnect == old(disableWalletConnect) && raceSubscription == old(raceSubscription)
      ensures log == old(log)
    {
      if exists k :: k in subscriptions && subscriptions[k] == ExtensionStream {
        var k :| k in subscriptions && subscriptions[k] == ExtensionStream;
        assert k in ExtensionSubscriptions();
        var s := FromExtension(report, defaultNetwork, validate);
        status, network, walletAddress := s.status, s.network, s.walletAddress;
      } else {
        assert ExtensionSubscriptions() == {};
      }
    }

    /** The session of controller `c` emits `session`. It is published when
        some live subscription listens to `c`, which is also the case for a
        controller that was replaced but whose subscription was never
        disposed. */
    method OnSessionUpdate(c: ControllerId, session: Session)
      requires Valid()
      modifies this
      ensures Valid()
      ensures old(SessionSubscriptions(c)) != {} ==> Published() == FromSession(session, defaultNetwork, walletConnectChainIds)
      ensures old(SessionSubscriptions(c)) == {} ==> Published() == old(Published())
      ensures subscriptions == old(subscriptions) && nextSubscription == old(nextSubscription)
      ensures walletConnect == old(walletConnect) && disableExtension == old(disableExtension)
      ensures disableWalletConnect == old(disableWalletConnect) && raceSubscription == old(raceSubscription)
      ensures log == old(log)
    {
      if exists k :: k in subscriptions && subscriptions[k] == SessionStream(c) {
        var k :| k in subscriptions && subscriptions[k] == SessionStream(c);
        assert k in SessionSubscriptions(c);
        var s := FromSession(session, defaultNetwork, walletConnectChainIds);
        status, network, walletAddress := s.status, s.network, s.walletAddress;
      } else {
        assert SessionSubscriptions(c) == {};
      }
    }

    /** The extension's status reaches WALLET_CONNECTED while the race is
        undecided: the race subscription is unsubscribed and the extension
        enabled. Once the race is decided this changes nothing. */
    method OnRaceConnected()
      requires Valid()
      modifies this
      ensures Valid()
      ensures var pending := old(raceSubscription).Some? && old(raceSubscription).value in old(subscriptions)
                             && old(subscriptions)[old(raceSubscription).value] == RacePending;
              && (pending ==>
                    && old(raceSubscription).value !in subscriptions
                    && walletConnect == None && disableWalletConnect == None
                    && disableExtension == Some(old(nextSubscription))
                    && nextSubscription == old(nextSubscription) + 1
                    && subscriptions ==
                         Release(old(subscriptions) - {old(raceSubscription).value},
                                 if old(disableWalletConnect).Some? then Some(old(disableWalletConnect).value.subscription) else None)
                         [old(nextSubscription) := ExtensionStream]
                    && log == old(log) + [Unsubscribed(old(raceSubscription).value)] + WalletConnectDisposal(old(disableWalletConnect)))
              && (!pending ==>
                    && subscriptions == old(subscriptions) && log == old(log)
                    && nextSubscription == old(nextSubscription)
                    && walletConnect == old(walletConnect) && disableExtension == old(disableExtension)
                    && disableWalletConnect == old(disableWalletConnect))
      ensures raceSubscription == old(raceSubscription)
      ensures Published() == old(Published())
    {
      if raceSubscription.Some? && raceSubscription.value in subscriptions && subscriptions[raceSubscription.value] == RacePending {
        var k := raceSubscription.value;
        subscriptions := subscriptions - {k};
        log := log + [Unsubscribed(k)];
        EnableExtension();
      }
    }

    /** The 10 s interval ticks. If the race is undecided, the interval wins
        it; from then on every tick writes WALLET_NOT_CONNECTED to the status
        alone, leaving network and address as they are. The race
        subscription is never unsubscribed. */
    method OnRaceTick()
      requires Valid()
      modifies this
      ensures Valid()
      ensures var live := old(raceSubscription).Some? && old(raceSubscription).value in old(subscriptions);
              && (live ==>
                    && status == WalletNotConnected
                    && subscriptions == old(subscriptions)[old(raceSubscription).value := RaceTimer])
              && (!live ==> status == old(status) && subscriptions == old(subscriptions))
      ensures network == old(network) && walletAddress == old(walletAddress)
      ensures walletConnect == old(walletConnect) && disableExtension == old(disableExtension)
      ensures disableWalletConnect == old(disableWalletConnect) && raceSubscription == old(raceSubscription)
      ensures nextSubscription == old(nextSubscription) && log == old(log)
    {
      if raceSubscription.Some? && raceSubscription.value in subscriptions {
        subscriptions := subscriptions[raceSubscription.value := RaceTimer];
        status := WalletNotConnected;
      }
    }
  }
}
