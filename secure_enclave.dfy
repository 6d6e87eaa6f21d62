/**
 * The enclave-key custodian `NTSecureEnclave`
 * (Sources/NeedleTailCrypto/SecureEnclave.swift): one hardware-backed P-256
 * key per configuration, persisted as a generic-password item holding the
 * key's opaque `dataRepresentation`, fetched or created on demand.
 *
 * The enclave itself is abstract (EnclaveDevice): whether it is available,
 * which keys it has created, and whether it restores a stored blob. The
 * custodian shares the platform store, and its slots, with `NTKeychain`.
 */
module SecureEnclave {
  import opened Wrappers
  import opened Utf8
  import opened SecItem
  import Keychain

  type KeychainConfiguration = Keychain.KeychainConfiguration

  /** A `SecureEnclave.P256.KeyAgreement.PrivateKey`, known by its opaque blob. */
  datatype EnclaveKey = EnclaveKey(dataRepresentation: seq<uint8>)

  /** `NTSecureEnclave.Errors`, and errors thrown by the enclave itself. */
  datatype EnclaveError = UnexpectedAccessData | UnhandledError(status: OSStatus) | ProviderError

  /** The query that the custodian's `keychainQuery(configuration:key:returnData:)` builds. */
  function EnclaveQuery(configuration: KeychainConfiguration, key: Option<EnclaveKey>, returnData: bool): (q: Query)
    ensures forall k | k in Keychain.ConfigurationQuery(configuration) ::
      k in q && q[k] == Keychain.ConfigurationQuery(configuration)[k]
    ensures ValueData in q <==> key.Some?
    ensures key.Some? ==> q[ValueData] == Bytes(key.value.dataRepresentation)
    ensures ReturnData in q <==> returnData
    ensures returnData ==> q[ReturnData] == Flag(true)
    ensures q.Keys <= Keychain.ConfigurationQuery(configuration).Keys + {ValueData, ReturnData}
    ensures SlotOf(q) == configuration.Address()
    ensures ReturnAttributes !in q
  {
    var base := Keychain.ConfigurationQuery(configuration);
    assert ReturnAttributes !in base && ValueData !in base && ReturnData !in base by {
      assert base.Keys <= Keychain.PolicyEntries.Keys + {AttrService, AttrAccount, AttrAccessGroup};
    }
    var withKey := if key.Some? then base[ValueData := Bytes(key.value.dataRepresentation)] else base;
    if returnData then withKey[ReturnData := Flag(true)] else withKey
  }

  /** The secure enclave of the device, kept abstract. */
  class EnclaveDevice {
    /** `SecureEnclave.isAvailable`. */
    const isAvailable: bool
    /** Whether the user accepts every prompt and the enclave does not fail. */
    ghost const cooperative: bool
    /** Every key this enclave has created, oldest first. */
    ghost var created: seq<EnclaveKey>
    var serial: nat

    constructor (isAvailable: bool, cooperative: bool)
      ensures this.isAvailable == isAvailable && this.cooperative == cooperative && created == []
    {
      this.isAvailable := isAvailable;
      this.cooperative := cooperative;
      created := [];
      serial := 0;
    }

    /** `SecureEnclave.P256.KeyAgreement.PrivateKey(accessControl:authenticationContext:)`. */
    method CreateKey() returns (r: Result<EnclaveKey, EnclaveError>)
      modifies this
      ensures r.Success? ==> created == old(created) + [r.value]
      ensures r.Failure? ==> created == old(created) && r.error == ProviderError
      ensures !isAvailable ==> r.Failure?
      ensures isAvailable && cooperative ==> r.Success?
    {
      if !isAvailable {
        return Failure(ProviderError);
      }
      // The blob stands in for the enclave's opaque key handle.
      var key := EnclaveKey(seq(serial, _ => 0));
      serial := serial + 1;
      created := created + [key];
      return Success(key);
    }

    /** `SecureEnclave.P256.KeyAgreement.PrivateKey(dataRepresentation:authenticationContext:)`. */
    method RestoreKey(data: seq<uint8>) returns (r: Result<EnclaveKey, EnclaveError>)
      ensures r.Success? ==> r.value == EnclaveKey(data)
      ensures r.Failure? ==> r.error == ProviderError
      ensures isAvailable && cooperative && EnclaveKey(data) in created ==> r.Success?
    {
      if !isAvailable {
        return Failure(ProviderError);
      }
      return Success(EnclaveKey(data));
    }
  }

  /**
   * What `loadPrivateKey` can have concluded from the answer `call` of the
   * store: nothing stored (or stored but not `Data`) gives nil, a stored blob
   * gives the key restored from it unless the enclave refuses it, and any
   * other status is thrown as `unhandledError` carrying that status.
   */
  ghost predicate LoadedFrom(call: Call, r: Result<Option<EnclaveKey>, EnclaveError>)
    requires call.CopyMatchingCall?
  {
    if call.status == errSecItemNotFound then r == Success(None)
    else if call.status == errSecSuccess then
      if call.result.Some? && call.result.value.DataObject? then
        r == Success(Some(EnclaveKey(call.result.value.data))) || r == Failure(ProviderError)
      else
        r == Success(None)
    else
      r == Failure(UnhandledError(call.status))
  }

  /** The actor `NTSecureEnclave`, run one call at a time. */
  class NTSecureEnclave {
    const store: SecItemStore
    const device: EnclaveDevice
    /** Whether `SecAccessControlCreateWithFlags` gave the key policy (it is nil on failure). */
    const hasAccessControl: bool

    constructor (store: SecItemStore, device: EnclaveDevice, hasAccessControl: bool)
      ensures this.store == store && this.device == device && this.hasAccessControl == hasAccessControl
    {
      this.store := store;
      this.device := device;
      this.hasAccessControl := hasAccessControl;
    }

    /** `keychainQuery(configuration:key:returnData:)`, built entry by entry. */
    method KeychainQuery(configuration: KeychainConfiguration, key: Option<EnclaveKey>, returnData: bool)
      returns (query: Query)
      ensures query == EnclaveQuery(configuration, key, returnData)
    {
      query := map[
        Class := ClassGenericPassword,
        AttrAccessible := AccessibleWhenUnlocked,
        UseDataProtectionKeychain := Flag(true),
        AttrSynchronizable := Flag(true)];
      if configuration.service.Some? {
        query := query[AttrService := Text(configuration.service.value)];
      }
      if configuration.account.Some? {
        query := query[AttrAccount := Text(configuration.account.value)];
      }
      if configuration.accessGroup.Some? {
        query := query[AttrAccessGroup := Text(configuration.accessGroup.value)];
      }
      assert query == Keychain.ConfigurationQuery(configuration);
      if key.Some? {
        query := query[ValueData := Bytes(key.value.dataRepresentation)];
      }
      if returnData {
        query := query[ReturnData := Flag(true)];
      }
    }

    /** `loadPrivateKey(configuration:)`. */
    method LoadPrivateKey(configuration: KeychainConfiguration) returns (r: Result<Option<EnclaveKey>, EnclaveError>)
      modifies store`calls
      ensures !device.isAvailable ==> r == Failure(UnexpectedAccessData) && store.calls == old(store.calls)
      ensures device.isAvailable ==>
        && |store.calls| == |old(store.calls)| + 1 && store.calls[..|old(store.calls)|] == old(store.calls)
        && store.calls[|old(store.calls)|].CopyMatchingCall?
        && store.calls[|old(store.calls)|].query == EnclaveQuery(configuration, None, true)
        && LoadedFrom(store.calls[|old(store.calls)|], r)
      ensures r.Success? && r.value.Some? ==>
        configuration.Address() in store.items && r.value.value == EnclaveKey(store.items[configuration.Address()])
      ensures r == Success(None) ==> configuration.Address() !in store.items
      ensures store.reliable && device.isAvailable && configuration.Address() !in store.items ==> r == Success(None)
      ensures store.reliable && device.isAvailable && device.cooperative && configuration.Address() in store.items
        && EnclaveKey(store.items[configuration.Address()]) in device.created
        ==> r == Success(Some(EnclaveKey(store.items[configuration.Address()])))
    {
      if !device.isAvailable {
        return Failure(UnexpectedAccessData);
      }
      var query := KeychainQuery(configuration, None, true);
      var status, item := store.CopyMatching(query);
      if status == errSecItemNotFound {
        return Success(None);
      } else if status == errSecSuccess {
        if item.Some? && item.value.DataObject? {
          var key :- device.RestoreKey(item.value.data);
          return Success(Some(key));
        }
        return Success(None);
      } else {
        return Failure(UnhandledError(status));
      }
    }

    /** `savePrivateKey(configuration:key:)`: delete whatever the slot holds, then add the key. */
    method SavePrivateKey(configuration: KeychainConfiguration, key: EnclaveKey) returns (r: Outcome<EnclaveError>)
      modifies store
      ensures var query := EnclaveQuery(configuration, Some(key), false);
        && |store.calls| == |old(store.calls)| + 2 && store.calls[..|old(store.calls)|] == old(store.calls)
        && store.calls[|old(store.calls)|] == DeleteCall(query, store.calls[|old(store.calls)|].status)
        && store.calls[|old(store.calls)| + 1] == AddCall(query, store.calls[|old(store.calls)| + 1].status)
        && r == if store.calls[|old(store.calls)| + 1].status == errSecSuccess then Pass
                else Fail(UnhandledError(store.calls[|old(store.calls)| + 1].status))
      ensures r.Pass? ==> store.items == old(store.items)[configuration.Address() := key.dataRepresentation]
      ensures r.Fail? ==> store.items == old(store.items) || store.items == old(store.items) - {configuration.Address()}
      ensures store.reliable ==> r.Pass?
    {
      var query := KeychainQuery(configuration, Some(key), false);
      var _ := store.Delete(query);
      ghost var afterDelete := store.calls;
      var status := store.Add(query);
      assert store.calls[..|old(store.calls)|] == old(store.calls) by {
        assert store.calls[..|afterDelete|] == afterDelete;
      }
      if status != errSecSuccess {
        return Fail(UnhandledError(status));
      }
      return Pass;
    }

    /** `fetchPrivateKey(configuration:)`: the stored key, or a new one that is saved first. */
    method FetchPrivateKey(configuration: KeychainConfiguration) returns (r: Result<EnclaveKey, EnclaveError>)
      modifies store, device
      // at most one key is created, and only after the load found nothing
      ensures |device.created| <= |old(device.created)| + 1 && old(device.created) <= device.created
      ensures |device.created| == |old(device.created)| + 1 ==>
        && device.isAvailable && hasAccessControl && configuration.Address() !in old(store.items)
        && |store.calls| == |old(store.calls)| + 3 && store.calls[..|old(store.calls)|] == old(store.calls)
        && store.calls[|old(store.calls)|].CopyMatchingCall?
        && store.calls[|old(store.calls)|].query == EnclaveQuery(configuration, None, true)
        && LoadedFrom(store.calls[|old(store.calls)|], Success(None))
        && var key := device.created[|old(device.created)|];
        && var query := EnclaveQuery(configuration, Some(key), false);
        && store.calls[|old(store.calls)| + 1] == DeleteCall(query, store.calls[|old(store.calls)| + 1].status)
        && store.calls[|old(store.calls)| + 2] == AddCall(query, store.calls[|old(store.calls)| + 2].status)
        && r == (if store.calls[|old(store.calls)| + 2].status == errSecSuccess then Success(key)
                 else Failure(UnhandledError(store.calls[|old(store.calls)| + 2].status)))
        && (r.Success? ==> store.items == old(store.items)[configuration.Address() := key.dataRepresentation])
      // a key that was not created was loaded, and nothing was saved
      ensures |device.created| == |old(device.created)| && r.Success? ==>
        && store.items == old(store.items)
        && |store.calls| == |old(store.calls)| + 1 && store.calls[..|old(store.calls)|] == old(store.calls)
        && store.calls[|old(store.calls)|].CopyMatchingCall?
        && store.calls[|old(store.calls)|].query == EnclaveQuery(configuration, None, true)
        && LoadedFrom(store.calls[|old(store.calls)|], Success(Some(r.value)))
        && configuration.Address() in store.items && r.value == EnclaveKey(store.items[configuration.Address()])
      ensures !device.isAvailable ==> r == Failure(UnexpectedAccessData) && store.calls == old(store.calls)
      ensures r.Failure? ==> store.items == old(store.items)
      // a fetch that fails without creating a key made one lookup and passes on what it concluded
      ensures device.isAvailable && |device.created| == |old(device.created)| && r.Failure? ==>
        && |store.calls| == |old(store.calls)| + 1 && store.calls[..|old(store.calls)|] == old(store.calls)
        && store.calls[|old(store.calls)|].CopyMatchingCall?
        && store.calls[|old(store.calls)|].query == EnclaveQuery(configuration, None, true)
        && var call := store.calls[|old(store.calls)|];
        && (call.status != errSecSuccess && call.status != errSecItemNotFound ==> r == Failure(UnhandledError(call.status)))
        && (LoadedFrom(call, Success(None)) ==>
              r == if hasAccessControl then Failure(ProviderError) else Failure(UnexpectedAccessData))
        && (!LoadedFrom(call, Success(None)) ==> LoadedFrom(call, Failure(r.error)))
      // with a reliable store and a cooperative enclave: an empty slot gets a new key, a stored key is returned
      ensures store.reliable && device.isAvailable && device.cooperative && hasAccessControl ==>
        configuration.Address() !in old(store.items) ==>
          && r.Success? && device.created == old(device.created) + [r.value]
          && store.items == old(store.items)[configuration.Address() := r.value.dataRepresentation]
      ensures store.reliable && device.isAvailable && device.cooperative ==>
        configuration.Address() in old(store.items) && EnclaveKey(old(store.items)[configuration.Address()]) in old(device.created) ==>
          && r == Success(EnclaveKey(old(store.items)[configuration.Address()]))
          && device.created == old(device.created) && store.items == old(store.items)
    {
      var loaded :- LoadPrivateKey(configuration);
      if loaded.None? {
        if !device.isAvailable {
          return Failure(UnexpectedAccessData);
        }
        if !hasAccessControl {
          return Failure(UnexpectedAccessData);
        }
        ghost var callsBeforeSave := store.calls;
        var privateKey :- device.CreateKey();
        var saved := SavePrivateKey(configuration, privateKey);
        assert store.calls[..|old(store.calls)|] == old(store.calls) by {
          assert store.calls[..|callsBeforeSave|] == callsBeforeSave;
        }
        if saved.Fail? {
          return Failure(saved.error);
        }
        return Success(privateKey);
      }
      return Success(loaded.value);
    }
  }

  /**
   * Fetch-or-create is idempotent: on a slot that is empty or holds a key of
   * this enclave, two fetches give the same key and create at most one.
   */
  method FetchTwice(custodian: NTSecureEnclave, configuration: KeychainConfiguration)
    returns (first: Result<EnclaveKey, EnclaveError>, second: Result<EnclaveKey, EnclaveError>)
    requires custodian.store.reliable && custodian.device.isAvailable && custodian.device.cooperative
    requires custodian.hasAccessControl
    requires configuration.Address() in custodian.store.items ==>
      EnclaveKey(custodian.store.items[configuration.Address()]) in custodian.device.created
    modifies custodian.store, custodian.device
    ensures first.Success? && second == first
    ensures |custodian.device.created| <= |old(custodian.device.created)| + 1
    ensures configuration.Address() in old(custodian.store.items) ==> custodian.device.created == old(custodian.device.created)
  {
    first := custodian.FetchPrivateKey(configuration);
    second := custodian.FetchPrivateKey(configuration);
  }
}
