/**
 * Generic-password items in the platform store: `KeychainItem`, the actor
 * `NTKeychain` that fronts it, and `KeychainConfiguration`
 * (Sources/NeedleTailCrypto/Keychain.swift).
 *
 * Items are Swift strings stored as their UTF-8 bytes. Every query starts from
 * `KeychainQuery`, so each method addresses the slot of its configuration.
 */
module Keychain {
  import opened Wrappers
  import opened Utf8
  import opened SecItem

  /** `KeychainConfiguration(service:account:accessGroup:)`, each part defaulting to nil. */
  datatype KeychainConfiguration = KeychainConfiguration(
    service: Option<string> := None,
    account: Option<string> := None,
    accessGroup: Option<string> := None)
  {
    /** The store slot this configuration addresses. */
    function Address(): Slot {
      Slot(service, account, accessGroup)
    }
  }

  datatype KeychainError = NoPassword | UnexpectedPasswordData | UnexpectedItemData | UnhandledError

  /** The four entries every query carries, whatever the configuration. */
  const PolicyEntries: Query := map[
    Class := ClassGenericPassword,
    AttrAccessible := AccessibleWhenUnlocked,
    UseDataProtectionKeychain := Flag(true),
    AttrSynchronizable := Flag(true)]

  function OptionalText(key: QueryKey, value: Option<string>): Query {
    if value.Some? then map[key := Text(value.value)] else map[]
  }

  /** The query that `keychainQuery(configuration:)` builds. */
  function ConfigurationQuery(configuration: KeychainConfiguration): (q: Query)
    ensures Class in q && q[Class] == ClassGenericPassword
    ensures AttrAccessible in q && q[AttrAccessible] == AccessibleWhenUnlocked
    ensures UseDataProtectionKeychain in q && q[UseDataProtectionKeychain] == Flag(true)
    ensures AttrSynchronizable in q && q[AttrSynchronizable] == Flag(true)
    ensures AttrService in q <==> configuration.service.Some?
    ensures AttrAccount in q <==> configuration.account.Some?
    ensures AttrAccessGroup in q <==> configuration.accessGroup.Some?
    ensures configuration.service.Some? ==> q[AttrService] == Text(configuration.service.value)
    ensures configuration.account.Some? ==> q[AttrAccount] == Text(configuration.account.value)
    ensures configuration.accessGroup.Some? ==> q[AttrAccessGroup] == Text(configuration.accessGroup.value)
    ensures q.Keys <= PolicyEntries.Keys + {AttrService, AttrAccount, AttrAccessGroup}
    ensures SlotOf(q) == configuration.Address()
  {
    PolicyEntries
      + OptionalText(AttrService, configuration.service)
      + OptionalText(AttrAccount, configuration.account)
      + OptionalText(AttrAccessGroup, configuration.accessGroup)
  }

  /**
   * `KeychainConfiguration()` leaves all three parts nil, and a part left out
   * of the initializer stays nil: the query of the default configuration is
   * the four fixed entries alone, and naming only a service adds just that.
   */
  lemma DefaultConfiguration(service: string)
    ensures KeychainConfiguration() == KeychainConfiguration(None, None, None)
    ensures KeychainConfiguration().Address() == Slot(None, None, None)
    ensures ConfigurationQuery(KeychainConfiguration()) == PolicyEntries
    ensures ConfigurationQuery(KeychainConfiguration(service := Some(service))) == PolicyEntries[AttrService := Text(service)]
  {
  }

  /** The query of `readItem`: one match, returning its attributes and data. */
  function ReadQuery(configuration: KeychainConfiguration): (q: Query)
    ensures SlotOf(q) == configuration.Address()
    ensures Requests(q, ReturnAttributes) && Requests(q, ReturnData)
  {
    ConfigurationQuery(configuration)[MatchLimit := MatchLimitOne][ReturnAttributes := Flag(true)][ReturnData := Flag(true)]
  }

  /** The query `saveItem` adds when the slot is empty: the configuration's query with the item's bytes. */
  function NewItemQuery(configuration: KeychainConfiguration, item: string): (q: Query)
    ensures SlotOf(q) == configuration.Address()
    ensures ValueDataOf(q) == Some(Encode(item))
  {
    ConfigurationQuery(configuration)[ValueData := Bytes(Encode(item))]
  }

  /** `existingItem[kSecValueData] as? Data` of the object `SecItemCopyMatching` returned. */
  function PasswordData(result: Option<Returned>): Option<seq<uint8>> {
    if result.Some? && result.value.AttributesObject? then ValueDataOf(result.value.attributes) else None
  }

  /** How `readItem` turns the status and result of `SecItemCopyMatching` into its value or error. */
  function ReadOutcome(status: OSStatus, result: Option<Returned>): (r: Result<string, KeychainError>)
    ensures r == Failure(NoPassword) <==> status == errSecItemNotFound
    ensures r == Failure(UnhandledError) <==> status != errSecSuccess && status != errSecItemNotFound
    ensures r.Success? ==> status == errSecSuccess && PasswordData(result) == Some(Encode(r.value))
    ensures status == errSecSuccess && (exists s :: PasswordData(result) == Some(Encode(s))) ==> r.Success?
    ensures r.Failure? ==> r.error != UnexpectedItemData
  {
    if status == errSecItemNotFound then
      Failure(NoPassword)
    else if status == errSecSuccess then
      var password := PasswordData(result);
      if password.Some? then
        match Decode(password.value)
        case Some(s) => DecodeIff(password.value, s); Success(s)
        case None =>
          assert forall s :: PasswordData(result) != Some(Encode(s)) by {
            forall s ensures PasswordData(result) != Some(Encode(s)) { DecodeIff(password.value, s); }
          }
          Failure(UnexpectedPasswordData)
      else
        Failure(UnexpectedPasswordData)
    else
      Failure(UnhandledError)
  }

  /** What `readItem` gives when the store answers from its contents. */
  function StoredPassword(items: map<Slot, seq<uint8>>, slot: Slot): Result<string, KeychainError> {
    if slot !in items then Failure(NoPassword)
    else match Decode(items[slot])
      case Some(s) => Success(s)
      case None => Failure(UnexpectedPasswordData)
  }

  /** After an item is stored in a slot, reading the slot gives the item back. */
  lemma StoredPasswordOfSaved(items: map<Slot, seq<uint8>>, slot: Slot, item: string)
    ensures StoredPassword(items[slot := Encode(item)], slot) == Success(item)
  {
    DecodeEncode(item);
  }

  /** A reliable store's answer to the read query, mapped by ReadOutcome, is StoredPassword. */
  lemma ReliableReadOutcome(items: map<Slot, seq<uint8>>, configuration: KeychainConfiguration, status: OSStatus, result: Option<Returned>)
    requires status == if configuration.Address() in items then errSecSuccess else errSecItemNotFound
    requires status == errSecSuccess ==> result == ReturnedFor(ReadQuery(configuration), items[configuration.Address()])
    ensures ReadOutcome(status, result) == StoredPassword(items, configuration.Address())
  {
    var slot := configuration.Address();
    if slot in items {
      assert PasswordData(result) == Some(items[slot]);
    }
  }

  /** What one call of `readItem` does to the store log, and what it returns. */
  ghost predicate ReadItemBehaviour(
    before: seq<Call>, after: seq<Call>, items: map<Slot, seq<uint8>>, reliable: bool,
    configuration: KeychainConfiguration, r: Result<string, KeychainError>)
  {
    && |after| == |before| + 1 && after[..|before|] == before
    && after[|before|].CopyMatchingCall?
    && after[|before|].query == ReadQuery(configuration)
    && r == ReadOutcome(after[|before|].status, after[|before|].result)
    && (reliable ==> r == StoredPassword(items, configuration.Address()))
    && (r == Failure(NoPassword) ==> configuration.Address() !in items)
    && (r.Success? ==> configuration.Address() in items && items[configuration.Address()] == Encode(r.value))
  }

  /**
   * What one call of `saveItem` does: it reads the slot; an existing item is
   * updated in place, an empty slot (`noPassword`) gets a new item, and any
   * other read error is rethrown before anything is written. A non-success
   * status of the write becomes `unhandledError`.
   */
  ghost predicate SaveItemBehaviour(
    before: seq<Call>, after: seq<Call>, itemsBefore: map<Slot, seq<uint8>>, items: map<Slot, seq<uint8>>,
    reliable: bool, item: string, configuration: KeychainConfiguration, r: Outcome<KeychainError>)
  {
    && |before| < |after| <= |before| + 2 && after[..|before|] == before
    && after[|before|].CopyMatchingCall?
    && after[|before|].query == ReadQuery(configuration)
    && var read := ReadOutcome(after[|before|].status, after[|before|].result);
    && (reliable ==> read == StoredPassword(itemsBefore, configuration.Address()))
    && (read == Failure(NoPassword) ==> configuration.Address() !in itemsBefore)
    && (read.Success? ==> configuration.Address() in itemsBefore)
    && (read.Success? ==>
          |after| == |before| + 2 && after[|before| + 1] ==
            UpdateCall(ConfigurationQuery(configuration), map[ValueData := Bytes(Encode(item))], after[|before| + 1].status))
    && (read == Failure(NoPassword) ==>
          |after| == |before| + 2 && after[|before| + 1] == AddCall(NewItemQuery(configuration, item), after[|before| + 1].status))
    && (read.Failure? && read.error != NoPassword ==> |after| == |before| + 1 && r == Fail(read.error))
    && (|after| == |before| + 2 ==>
          r == if after[|before| + 1].status == errSecSuccess then Pass else Fail(UnhandledError))
    && (r.Pass? ==> items == itemsBefore[configuration.Address() := Encode(item)])
    && (r.Fail? ==> items == itemsBefore)
    && (reliable ==>
          (r.Pass? <==> configuration.Address() !in itemsBefore || Decode(itemsBefore[configuration.Address()]).Some?))
  }

  /**
   * `saveItem` is an upsert decided by the slot: an occupied slot is never
   * added to, and on a reliable store a UTF-8 item is updated, an empty slot
   * gets an add, and bytes that are not UTF-8 are rethrown as
   * `unexpectedPasswordData` with nothing written.
   */
  lemma SaveItemUpserts(
    before: seq<Call>, after: seq<Call>, itemsBefore: map<Slot, seq<uint8>>, items: map<Slot, seq<uint8>>,
    reliable: bool, item: string, configuration: KeychainConfiguration, r: Outcome<KeychainError>)
    requires SaveItemBehaviour(before, after, itemsBefore, items, reliable, item, configuration, r)
    ensures configuration.Address() in itemsBefore ==> forall k | |before| <= k < |after| :: !after[k].AddCall?
    ensures reliable && configuration.Address() in itemsBefore && Decode(itemsBefore[configuration.Address()]).Some? ==>
      |after| == |before| + 2 && after[|before| + 1].UpdateCall?
    ensures reliable && configuration.Address() !in itemsBefore ==>
      |after| == |before| + 2 && after[|before| + 1].AddCall?
    ensures reliable && configuration.Address() in itemsBefore && Decode(itemsBefore[configuration.Address()]).None? ==>
      |after| == |before| + 1 && r == Fail(UnexpectedPasswordData) && items == itemsBefore
  {
  }

  /** What one call of `deleteItem` does: a delete that finds nothing is not an error. */
  ghost predicate DeleteItemBehaviour(
    before: seq<Call>, after: seq<Call>, itemsBefore: map<Slot, seq<uint8>>, items: map<Slot, seq<uint8>>,
    reliable: bool, configuration: KeychainConfiguration, r: Outcome<KeychainError>)
  {
    && |after| == |before| + 1 && after[..|before|] == before
    && after[|before|] == DeleteCall(ConfigurationQuery(configuration), after[|before|].status)
    && (r == Pass <==> after[|before|].status == errSecSuccess || after[|before|].status == errSecItemNotFound)
    && (r.Fail? ==> r.error == UnhandledError && items == itemsBefore)
    && (r.Pass? ==> configuration.Address() !in items && items == itemsBefore - {configuration.Address()})
    && (reliable ==> r == Pass)
  }

  /** `KeychainItem`: stateless itself, it works on the platform store. */
  class KeychainItem {
    const store: SecItemStore

    constructor (store: SecItemStore)
      ensures this.store == store
    {
      this.store := store;
    }

    /** `keychainQuery(configuration:)`, built entry by entry. */
    method KeychainQuery(configuration: KeychainConfiguration) returns (query: Query)
      ensures query == ConfigurationQuery(configuration)
    {
      query := map[
        Class := ClassGenericPassword,
        AttrAccessible := AccessibleWhenUnlocked,
        UseDataProtectionKeychain := Flag(true),
        AttrSynchronizable := Flag(true)];
      if configuration.service.Some? {
        query := query[AttrService := Text(configuration.service.value)];
      }
      if configuration.account.Some? {
        query := query[AttrAccount := Text(configuration.account.value)];
      }
      if configuration.accessGroup.Some? {
        query := query[AttrAccessGroup := Text(configuration.accessGroup.value)];
      }
    }

    /** `readItem(configuration:)`. */
    method ReadItem(configuration: KeychainConfiguration) returns (r: Result<string, KeychainError>)
      modifies store`calls
      ensures ReadItemBehaviour(old(store.calls), store.calls, store.items, store.reliable, configuration, r)
    {
      var query := KeychainQuery(configuration);
      query := query[MatchLimit := MatchLimitOne];
      query := query[ReturnAttributes := Flag(true)];
      query := query[ReturnData := Flag(true)];
      var status, queryResult := store.CopyMatching(query);
      if status == errSecItemNotFound {
        r := Failure(NoPassword);
      } else if status == errSecSuccess {
        if queryResult.Some? && queryResult.value.AttributesObject?
          && ValueData in queryResult.value.attributes && queryResult.value.attributes[ValueData].Bytes?
        {
          var password := Decode(queryResult.value.attributes[ValueData].data);
          if password.Some? {
            r := Success(password.value);
          } else {
            r := Failure(UnexpectedPasswordData);
          }
        } else {
          r := Failure(UnexpectedPasswordData);
        }
      } else {
        r := Failure(UnhandledError);
      }
      if store.reliable {
        ReliableReadOutcome(store.items, configuration, status, queryResult);
      }
    }

    /** `saveItem(_:with:)`: update the item if it can be read, add it if the slot is empty. */
    method SaveItem(item: string, configuration: KeychainConfiguration) returns (r: Outcome<KeychainError>)
      modifies store
      ensures SaveItemBehaviour(old(store.calls), store.calls, old(store.items), store.items, store.reliable, item, configuration, r)
    {
      // `item.data(using: .utf8)` never returns nil, so `unexpectedItemData` is never thrown.
      var encodedItem := Encode(item);
      var query := KeychainQuery(configuration);
      var status: OSStatus;
      ghost var before, itemsBefore := store.calls, store.items;

      var read := ReadItem(configuration);
      ghost var afterRead := store.calls;
      if read.Success? {
        var attributesToUpdate := map[ValueData := Bytes(encodedItem)];
        status := store.Update(query, attributesToUpdate);
      } else if read.error == NoPassword {
        var newItem := query[ValueData := Bytes(encodedItem)];
        status := store.Add(newItem);
      } else {
        return Fail(read.error);
      }
      assert store.calls[..|before|] == before by {
        assert store.calls[..|afterRead|] == afterRead;
      }
      if status != errSecSuccess {
        return Fail(UnhandledError);
      }
      return Pass;
    }

    /** `deleteItem(configuration:)`. */
    method DeleteItem(configuration: KeychainConfiguration) returns (r: Outcome<KeychainError>)
      modifies store
      ensures DeleteItemBehaviour(old(store.calls), store.calls, old(store.items), store.items, store.reliable, configuration, r)
    {
      var query := KeychainQuery(configuration);
      var status := store.Delete(query);
      if status != errSecSuccess && status != errSecItemNotFound {
        return Fail(UnhandledError);
      }
      return Pass;
    }
  }

  /** The actor `NTKeychain`, run one call at a time. */
  class NTKeychain {
    const keychainItem: KeychainItem

    constructor (store: SecItemStore)
      ensures keychainItem.store == store
    {
      keychainItem := new KeychainItem(store);
    }

    /** `save(item:with:)`. */
    method Save(item: string, configuration: KeychainConfiguration) returns (r: Outcome<KeychainError>)
      modifies keychainItem.store
      ensures SaveItemBehaviour(
        old(keychainItem.store.calls), keychainItem.store.calls, old(keychainItem.store.items), keychainItem.store.items,
        keychainItem.store.reliable, item, configuration, r)
    {
      r := keychainItem.SaveItem(item, configuration);
    }

    /** `fetchItem(configuration:)`: never throws; every read error becomes nil. */
    method FetchItem(configuration: KeychainConfiguration) returns (r: Option<string>)
      modifies keychainItem.store`calls
      ensures var store := keychainItem.store;
        && |store.calls| == |old(store.calls)| + 1 && store.calls[..|old(store.calls)|] == old(store.calls)
        && store.calls[|old(store.calls)|].CopyMatchingCall?
        && store.calls[|old(store.calls)|].query == ReadQuery(configuration)
        && var read := ReadOutcome(store.calls[|old(store.calls)|].status, store.calls[|old(store.calls)|].result);
        && (r.None? <==> read.Failure?)
        && (r.Some? ==> read == Success(r.value))
        && (store.reliable ==> r == StoredPassword(store.items, configuration.Address()).ToOption())
        && (r.Some? ==> configuration.Address() in store.items && store.items[configuration.Address()] == Encode(r.value))
    {
      var read := keychainItem.ReadItem(configuration);
      if read.Success? {
        return Some(read.value);
      }
      return None;
    }

    /** `deleteItem(configuration:)`. */
    method DeleteItem(configuration: KeychainConfiguration) returns (r: Outcome<KeychainError>)
      modifies keychainItem.store
      ensures DeleteItemBehaviour(
        old(keychainItem.store.calls), keychainItem.store.calls, old(keychainItem.store.items), keychainItem.store.items,
        keychainItem.store.reliable, configuration, r)
    {
      r := keychainItem.DeleteItem(configuration);
    }
  }

  /** A save that succeeds is read back: the next fetch gives the saved string. */
  method SaveThenFetch(keychain: NTKeychain, item: string, configuration: KeychainConfiguration)
    returns (saved: Outcome<KeychainError>, fetched: Option<string>)
    requires keychain.keychainItem.store.reliable
    modifies keychain.keychainItem.store
    ensures saved.Pass? ==> fetched == Some(item)
  {
    saved := keychain.Save(item, configuration);
    fetched := keychain.FetchItem(configuration);
    if saved.Pass? {
      StoredPasswordOfSaved(old(keychain.keychainItem.store.items), configuration.Address(), item);
    }
  }

  /** Deleting twice is not an error, and afterwards the slot reads as `noPassword`. */
  method DeleteTwiceThenRead(keychain: NTKeychain, configuration: KeychainConfiguration)
    returns (first: Outcome<KeychainError>, second: Outcome<KeychainError>, read: Result<string, KeychainError>)
    requires keychain.keychainItem.store.reliable
    modifies keychain.keychainItem.store
    ensures first == Pass && second == Pass && read == Failure(NoPassword)
  {
    first := keychain.DeleteItem(configuration);
    second := keychain.DeleteItem(configuration);
    read := keychain.keychainItem.ReadItem(configuration);
  }
}
