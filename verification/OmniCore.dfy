/** The handshake handlers as the application runs them: one object holding the registry, the
    retry table, the key-exchange sessions and the pairing list of every device. Each handler
    does to the one device it names what Link says and leaves every other device alone. */
module OmniCoreModel {
  import opened Types
  import L = Link

  datatype OmniInstance = OmniInstance(ip: u32, linkState: L.NetLinkState, handshakeToken: u32)

  class OmniCore {
    const userIP: u32
    var allInstances: map<DeviceMap, OmniInstance>
    var instanceLookup: map<u32, DeviceMap>
    // Devices with an entry in ActiveInstances; both places that create one give it a session.
    var activeInstances: set<DeviceMap>
    var handshakeRetries: map<DeviceMap, L.RetryContext>
    // QryptManager: ECDH sessions and the devices trusted on disk.
    var activeSessions: map<DeviceMap, L.EcdhSession>
    var trustedPairingTokens: set<DeviceMap>
    // Every packet sent to a device, oldest first.
    var transmitted: map<DeviceMap, seq<L.Packet>>

    constructor (ip: u32, peers: map<u32, DeviceMap>)
      ensures userIP == ip && instanceLookup == peers
      ensures forall d :: View(d) == L.Device(0, L.Inactive, 0, false, None, None, false, [])
    {
      userIP := ip;
      allInstances, instanceLookup, activeInstances := map[], peers, {};
      handshakeRetries, activeSessions, trustedPairingTokens := map[], map[], {};
      transmitted := map[];
    }

    // An absent key of AllInstances reads as a default-constructed instance.
    function Instance(d: DeviceMap): OmniInstance
      reads this
    {
      if d in allInstances then allInstances[d] else OmniInstance(0, L.Inactive, 0)
    }

    function Sent(d: DeviceMap): seq<L.Packet>
      reads this
    {
      if d in transmitted then transmitted[d] else []
    }

    function View(d: DeviceMap): L.Device
      reads this
    {
      var i := Instance(d);
      L.Device(i.ip, i.linkState, i.handshakeToken, d in activeInstances,
               if d in handshakeRetries then Some(handshakeRetries[d]) else None,
               if d in activeSessions then Some(activeSessions[d]) else None,
               d in trustedPairingTokens, Sent(d))
    }

    twostate predicate OnlyTouches(d: DeviceMap)
      reads this
    {
      instanceLookup == old(instanceLookup) &&
      forall e: DeviceMap :: e != d ==> View(e) == old(View(e))
    }

    // ---- Registry ------------------------------------------------------------------------

    method SetConnectionState(d: DeviceMap, newState: L.NetLinkState) returns (ok: bool)
      modifies this
      ensures ok == L.Allowed(old(View(d)).state, newState)
      ensures View(d) == L.SetState(old(View(d)), newState) && OnlyTouches(d)
    {
      var i := Instance(d);
      if newState.Failed? || newState.Inactive? {
        allInstances := allInstances[d := i.(linkState := newState)];
        return true;
      }
      if i.linkState.Ord() < newState.Ord() {
        allInstances := allInstances[d := i.(linkState := newState)];
        return true;
      }
      return false;
    }

    method GetConnectionState(d: DeviceMap) returns (s: L.NetLinkState)
      ensures s == View(d).state
    {
      return Instance(d).linkState;
    }

    method GetHandshakeToken(d: DeviceMap) returns (token: u32)
      ensures token == View(d).token
    {
      return Instance(d).handshakeToken;
    }

    method GetSessionState(d: DeviceMap) returns (active: bool)
      ensures active == View(d).session
    {
      return d in activeInstances;
    }

    method GetAddress(d: DeviceMap) returns (ip: u32)
      ensures ip == View(d).ip
    {
      return Instance(d).ip;
    }

    method SetHandshakeToken(d: DeviceMap, token: u32)
      modifies this
      ensures View(d) == old(View(d)).(token := token) && OnlyTouches(d)
    {
      allInstances := allInstances[d := Instance(d).(handshakeToken := token)];
    }

    method Transmit(d: DeviceMap, p: L.Packet)
      modifies this
      ensures View(d) == L.Send(old(View(d)), [p]) && OnlyTouches(d)
    {
      transmitted := transmitted[d := Sent(d) + [p]];
    }

    method TransmitConnectionState(d: DeviceMap)
      modifies this
      ensures View(d) == L.TransmitState(old(View(d))) && OnlyTouches(d)
    {
      Transmit(d, L.LinkResponse(Instance(d).linkState, Instance(d).handshakeToken));
    }

    method TransmitNetCommand(d: DeviceMap, p: L.Packet)
      modifies this
      ensures View(d) == L.TransmitCommand(old(View(d)), p) && OnlyTouches(d)
    {
      if d in activeInstances {
        Transmit(d, p);
      }
    }

    method ResetInstance(d: DeviceMap)
      modifies this
      ensures View(d) == L.Reset(old(View(d))) && OnlyTouches(d)
    {
      activeInstances := activeInstances - {d};
      allInstances := allInstances[d := Instance(d).(linkState := L.Inactive, handshakeToken := 0)];
    }

    method ActivateInstance(d: DeviceMap)
      modifies this
      ensures View(d) == old(View(d)).(session := true) && OnlyTouches(d)
    {
      activeInstances := activeInstances + {d};
    }

    method SetRetry(d: DeviceMap, r: L.RetryContext)
      modifies this
      ensures View(d) == old(View(d)).(retry := Some(r)) && OnlyTouches(d)
    {
      handshakeRetries := handshakeRetries[d := r];
    }

    // HandshakeRetries.count and operator[].
    method GetRetry(d: DeviceMap) returns (r: Option<L.RetryContext>)
      ensures r == View(d).retry
    {
      return if d in handshakeRetries then Some(handshakeRetries[d]) else None;
    }

    method EraseRetry(d: DeviceMap)
      modifies this
      ensures View(d) == old(View(d)).(retry := None) && OnlyTouches(d)
    {
      handshakeRetries := handshakeRetries - {d};
    }

    // ---- Key-exchange sessions -------------------------------------------------------------

    method GenerateKeyPair(d: DeviceMap)
      modifies this
      ensures View(d) == old(View(d)).(crypt := Some(L.GenerateKeyPair(old(View(d)).crypt)))
      ensures OnlyTouches(d)
    {
      if d in activeSessions && activeSessions[d].keyPair {
        return;
      }
      activeSessions := activeSessions[d := L.EcdhSession(true, false, false)];
    }

    method DeriveSecret(d: DeviceMap)
      requires View(d).crypt.Some?
      modifies this
      ensures View(d) == old(View(d)).(crypt := Some(L.DeriveSecret(old(View(d)).crypt.value)))
      ensures OnlyTouches(d)
    {
      activeSessions := activeSessions[d := activeSessions[d].(secret := true, authenticated := false)];
    }

    method AuthenticateSession(d: DeviceMap)
      modifies this
      ensures View(d) == L.AuthenticateSession(old(View(d))) && OnlyTouches(d)
    {
      if d in activeSessions && activeSessions[d].secret {
        activeSessions := activeSessions[d := activeSessions[d].(authenticated := true)];
      }
    }

    method SessionAuthState(d: DeviceMap) returns (ok: bool)
      ensures ok == L.Authenticated(View(d))
    {
      return d in activeSessions && activeSessions[d].secret && activeSessions[d].authenticated;
    }

    method PairingTokenState(d: DeviceMap) returns (paired: bool)
      ensures paired == View(d).paired
    {
      return d in trustedPairingTokens;
    }

    method StorePairingToken(d: DeviceMap)
      modifies this
      ensures View(d) == old(View(d)).(paired := true) && OnlyTouches(d)
    {
      trustedPairingTokens := trustedPairingTokens + {d};
    }

    method ClearSession(d: DeviceMap)
      modifies this
      ensures View(d) == old(View(d)).(crypt := None) && OnlyTouches(d)
    {
      activeSessions := activeSessions - {d};
    }

    // ---- Datagrams -----------------------------------------------------------------------

    // queued: a ConnectionRequest for the sender was handed to the command queue.
    method OnLinkRequest(ip: u32, token: u32) returns (queued: Option<DeviceMap>)
      modifies this
      ensures ip !in old(instanceLookup) ==>
                queued.None? && instanceLookup == old(instanceLookup) &&
                forall e :: View(e) == old(View(e))
      ensures ip in old(instanceLookup) ==>
                var d := old(instanceLookup)[ip];
                && OnlyTouches(d)
                && View(d) == L.OnLinkRequest(old(View(d)), userIP, token)
                && queued == if old(View(d)).state.Linking() && L.WinsDuel(old(View(d)), userIP)
                             then None else Some(d)
    {
      hide View;
      if ip !in instanceLookup {
        return None;
      }
      var d := instanceLookup[ip];
      var current := GetConnectionState(d);
      if L.NetLinkState.LinkingInit.Ord() <= current.Ord() < L.NetLinkState.Linked.Ord() {
        var address := GetAddress(d);
        if userIP < address {
          return None;
        }
        ResetInstance(d);
        var retry := GetRetry(d);
        if retry.Some? {
          EraseRetry(d);
        }
      }
      SetHandshakeToken(d, token);
      var _ := SetConnectionState(d, L.LinkingWait);
      return Some(d);
    }

    method OnLinkResponse(ip: u32, linkState: L.NetLinkState, token: u32)
      modifies this
      ensures ip !in old(instanceLookup) ==>
                instanceLookup == old(instanceLookup) && forall e :: View(e) == old(View(e))
      ensures ip in old(instanceLookup) ==>
                var d := old(instanceLookup)[ip];
                View(d) == L.OnLinkResponse(old(View(d)), linkState, token) && OnlyTouches(d)
    {
      hide View;
      if ip !in instanceLookup {
        return;
      }
      var d := instanceLookup[ip];
      var held := GetHandshakeToken(d);
      if token != held {
        return;
      }
      var active := GetSessionState(d);
      if !active {
        return;
      }
      var retry := GetRetry(d);
      if linkState.LinkingWait? {
        var advanced := SetConnectionState(d, L.LinkingAck);
        if advanced {
          if retry.Some? && retry.value.active {
            SetRetry(d, retry.value.(retriesLeft := 5));
          }
          RequestHandshake(d);
        }
      } else if linkState.Linked? {
        var advanced := SetConnectionState(d, L.Linked);
        if advanced {
          AuthenticateSession(d);
          if retry.Some? {
            EraseRetry(d);
          }
        }
      } else if linkState.Failed? {
        var _ := SetConnectionState(d, L.Failed);
        ResetInstance(d);
        if retry.Some? {
          EraseRetry(d);
        }
        ClearSession(d);
      }
    }

    // ---- Commands ------------------------------------------------------------------------

    method RequestHandshake(d: DeviceMap)
      modifies this
      ensures View(d) == L.RequestHandshake(old(View(d))) && OnlyTouches(d)
    {
      hide View;
      var token := GetHandshakeToken(d);
      GenerateKeyPair(d);
      TransmitNetCommand(d, L.HandshakeData(token));
      SetRetry(d, L.RetryContext(token, 1, true));
    }

    method HandshakeHandler(ip: u32, token: u32)
      modifies this
      ensures ip !in old(instanceLookup) ==>
                instanceLookup == old(instanceLookup) && forall e :: View(e) == old(View(e))
      ensures ip in old(instanceLookup) ==>
                var d := old(instanceLookup)[ip];
                View(d) == L.OnHandshakeData(old(View(d)), token) && OnlyTouches(d)
    {
      hide View, L.AcceptConnection;
      if ip !in instanceLookup {
        return;
      }
      var d := instanceLookup[ip];
      var held := GetHandshakeToken(d);
      if token != held {
        return;
      }
      var current := GetConnectionState(d);
      var priorSessionAuth := SessionAuthState(d);
      if current.Ord() < L.NetLinkState.LinkingWait.Ord() ||
         (L.NetLinkState.Linked.Ord() <= current.Ord() && priorSessionAuth) {
        return;
      }
      GenerateKeyPair(d);
      DeriveSecret(d);
      var responseRequired := current.LinkingWait?;
      if responseRequired {
        TransmitNetCommand(d, L.HandshakeData(token));
      }
      var retry := GetRetry(d);
      var advanced := SetConnectionState(d, L.LinkingAuth);
      if !advanced {
        if current.Linked? {
          AuthenticateSession(d);
          if retry.Some? {
            EraseRetry(d);
          }
        }
        return;
      }
      if responseRequired {
        var paired := PairingTokenState(d);
        if priorSessionAuth {
          AcceptConnection(d, false);
          return;
        } else if paired {
          AcceptConnection(d, true);
          return;
        }
      }
      if retry.Some? {
        SetRetry(d, retry.value.(retriesLeft := 1));
      }
    }

    method AcceptConnection(d: DeviceMap, trustPermanently: bool)
      modifies this
      ensures View(d) == L.AcceptConnection(old(View(d)), trustPermanently) && OnlyTouches(d)
    {
      hide View;
      AuthenticateSession(d);
      var _ := SetConnectionState(d, L.Linked);
      TransmitConnectionState(d);
      if trustPermanently {
        StorePairingToken(d);
      }
      var retry := GetRetry(d);
      if retry.Some? {
        EraseRetry(d);
      }
    }

    method RejectConnection(d: DeviceMap)
      modifies this
      ensures View(d) == L.RejectConnection(old(View(d))) && OnlyTouches(d)
    {
      hide View;
      ClearSession(d);
      var _ := SetConnectionState(d, L.Failed);
      TransmitConnectionState(d);
      var retry := GetRetry(d);
      if retry.Some? {
        EraseRetry(d);
      }
      ResetInstance(d);
    }

    // token: the number GenerateHandshakeToken draws; sessionOk: the socket session came up.
    method ConnectInstance(d: DeviceMap, token: u32, sessionOk: bool)
      modifies this
      ensures View(d) == L.ConnectInstance(old(View(d)), token, sessionOk) && OnlyTouches(d)
    {
      hide View;
      var current := GetConnectionState(d);
      match current {
        case Failed | Inactive =>
          SetHandshakeToken(d, token);
          if !sessionOk {
            var _ := SetConnectionState(d, L.Failed);
            return;
          }
          ActivateInstance(d);
          var _ := SetConnectionState(d, L.LinkingInit);
          Transmit(d, L.LinkRequest(token));
          SetRetry(d, L.RetryContext(token, 5, true));
        case LinkingWait =>
          var held := GetHandshakeToken(d);
          if !sessionOk {
            var _ := SetConnectionState(d, L.Failed);
            return;
          }
          ActivateInstance(d);
          TransmitConnectionState(d);
          SetRetry(d, L.RetryContext(held, 5, true));
        case _ =>
      }
    }

    method ForgetDevice(d: DeviceMap)
      modifies this
      ensures View(d) == L.ForgetDevice(old(View(d))) && OnlyTouches(d)
    {
      ResetInstance(d);
      ClearSession(d);
    }

    // What RefreshInstanceList does to a device that was not found again.
    method ClearInstance(d: DeviceMap)
      modifies this
      ensures View(d) == L.ClearInstance(old(View(d))) && OnlyTouches(d)
    {
      allInstances := allInstances[d := OmniInstance(0, L.Inactive, 0)];
    }

    // ---- Retry timer ---------------------------------------------------------------------

    method FailHandshake(d: DeviceMap)
      modifies this
      ensures View(d) == L.FailHandshake(old(View(d))) && OnlyTouches(d)
    {
      ClearSession(d);
      var _ := SetConnectionState(d, L.Failed);
      TransmitConnectionState(d);
      ResetInstance(d);
    }

    // One entry of the retry table; exterminate asks for the entry to be erased after the pass.
    method HandleRetry(d: DeviceMap) returns (exterminate: bool)
      requires View(d).retry.Some? && View(d).retry.value.active
      modifies this
      ensures OnlyTouches(d) && View(d).retry.Some?
      ensures if exterminate then View(d).(retry := None) == L.OnTimer(old(View(d)))
              else View(d) == L.OnTimer(old(View(d)))
    {
      hide View, L.GenerateKeyPair;
      var retry := GetRetry(d);
      if retry.value.retriesLeft <= 0 {
        FailHandshake(d);
        return true;
      }
      var current := GetConnectionState(d);
      match current {
        case LinkingInit =>
          Transmit(d, L.LinkRequest(retry.value.token));
          TransmitConnectionState(d);
          DecrementRetries(d);
          return false;
        case LinkingWait =>
          TransmitConnectionState(d);
          DecrementRetries(d);
          return false;
        case LinkingAck =>
          RequestHandshake(d);
          DecrementRetries(d);
          return false;
        case LinkingAuth =>
          FailHandshake(d);
          return true;
        case _ =>
          return true;
      }
    }

    method DecrementRetries(d: DeviceMap)
      requires View(d).retry.Some?
      modifies this
      ensures View(d) == L.Decrement(old(View(d))) && OnlyTouches(d)
    {
      hide View;
      var retry := GetRetry(d);
      SetRetry(d, retry.value.(retriesLeft := retry.value.retriesLeft - 1));
    }

    // due: the devices whose deadline has passed. Whatever order the table is walked in, each
    // due and active entry is handled exactly once and every other device is left alone.
    method HandleHandshakeRetries(due: set<DeviceMap>)
      modifies this
      ensures instanceLookup == old(instanceLookup)
      ensures forall d :: View(d) == AfterPass(old(View(d)), d in due)
    {
      var todo := handshakeRetries.Keys;
      assert forall d :: d in todo <==> View(d).retry.Some?;
      hide View, AfterPass;
      ghost var before := Snapshot();
      var targets: set<DeviceMap> := {};
      assert Midway(before, todo, targets, due) by { UntouchedWithoutEntry(before, todo, due); }
      while todo != {}
        invariant instanceLookup == old(instanceLookup)
        invariant Midway(before, todo, targets, due)
        decreases todo
      {
        var d :| d in todo;
        targets := VisitRetry(d, due, before, todo, targets);
        todo := todo - {d};
      }
      while targets != {}
        invariant instanceLookup == old(instanceLookup)
        invariant Midway(before, {}, targets, due)
        decreases targets
      {
        var d :| d in targets;
        EraseTarget(d, due, before, targets);
        targets := targets - {d};
      }
    }

    ghost function Snapshot(): map<DeviceMap, L.Device>
      reads this
    {
      map d: DeviceMap | d <= 9 :: View(d)
    }

    // todo: the entries not visited yet. targets: those visited and to be erased.
    ghost predicate Midway(before: map<DeviceMap, L.Device>, todo: set<DeviceMap>, targets: set<DeviceMap>,
                           due: set<DeviceMap>)
      reads this
    {
      && todo !! targets
      && forall d: DeviceMap ::
           d in before &&
           if d in todo then View(d) == before[d] && before[d].retry.Some?
           else if d in targets then View(d).(retry := None) == AfterPass(before[d], d in due)
           else View(d) == AfterPass(before[d], d in due)
    }

    // No entry, nothing to do.
    lemma UntouchedWithoutEntry(before: map<DeviceMap, L.Device>, todo: set<DeviceMap>, due: set<DeviceMap>)
      requires before == Snapshot() && forall d :: d in todo <==> View(d).retry.Some?
      ensures Midway(before, todo, {}, due)
    {
      hide View;
    }

    method VisitRetry(d: DeviceMap, due: set<DeviceMap>, ghost before: map<DeviceMap, L.Device>,
                      ghost todo: set<DeviceMap>, targets: set<DeviceMap>) returns (targets': set<DeviceMap>)
      requires d in todo && Midway(before, todo, targets, due)
      modifies this
      ensures instanceLookup == old(instanceLookup) && Midway(before, todo - {d}, targets', due)
    {
      hide View, L.OnTimer;
      var retry := GetRetry(d);
      targets' := targets;
      if retry.value.active && d in due {
        var exterminate := HandleRetry(d);
        if exterminate {
          targets' := targets' + {d};
        }
      } else if d in due {
        InactiveEntryStays(before[d]);
      }
    }

    static lemma InactiveEntryStays(v: L.Device)
      requires v.retry.Some? && !v.retry.value.active
      ensures L.OnTimer(v) == v
    {
    }

    method EraseTarget(d: DeviceMap, due: set<DeviceMap>, ghost before: map<DeviceMap, L.Device>,
                       ghost targets: set<DeviceMap>)
      requires d in targets && Midway(before, {}, targets, due)
      modifies this
      ensures instanceLookup == old(instanceLookup) && Midway(before, {}, targets - {d}, due)
    {
      hide View, L.OnTimer;
      EraseRetry(d);
    }

    static function AfterPass(v: L.Device, due: bool): L.Device {
      if due then L.OnTimer(v) else v
    }
  }
}
