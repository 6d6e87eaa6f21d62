/**
 * The platform secret store behind `SecItemCopyMatching`, `SecItemAdd`,
 * `SecItemUpdate` and `SecItemDelete`, kept abstract.
 *
 * A query is a dictionary from attribute keys to values. The store holds one
 * byte string per slot, where a slot is the (service, account, access group)
 * triple that a query names; every other attribute is policy that the model
 * does not interpret. Each call answers a status. Success and "item not found"
 * are always truthful; any other status (a locked device, a declined prompt)
 * may be returned by an unreliable store, and then the call changes nothing.
 * A reliable store answers every call from its contents. The ghost log
 * `calls` records every call and its answer, so that the callers' contracts
 * can say which calls they issue and in what order.
 */
module SecItem {
  import opened Wrappers
  import opened Utf8

  /** An `OSStatus` code. */
  type OSStatus = int

  /** `errSecSuccess`, which is also `noErr`. */
  const errSecSuccess: OSStatus := 0
  const errSecDuplicateItem: OSStatus := -25299
  const errSecItemNotFound: OSStatus := -25300

  /** The `kSec...` dictionary keys that the repository uses. */
  datatype QueryKey =
    | Class                      // kSecClass
    | AttrAccessible             // kSecAttrAccessible
    | UseDataProtectionKeychain  // kSecUseDataProtectionKeychain
    | AttrSynchronizable         // kSecAttrSynchronizable
    | AttrService                // kSecAttrService
    | AttrAccount                // kSecAttrAccount
    | AttrAccessGroup            // kSecAttrAccessGroup
    | MatchLimit                 // kSecMatchLimit
    | ReturnAttributes           // kSecReturnAttributes
    | ReturnData                 // kSecReturnData
    | ValueData                  // kSecValueData

  /** The values stored under those keys. */
  datatype AttributeValue =
    | ClassGenericPassword       // kSecClassGenericPassword
    | AccessibleWhenUnlocked     // kSecAttrAccessibleWhenUnlocked
    | MatchLimitOne              // kSecMatchLimitOne
    | Flag(flag: bool)           // true, false, kCFBooleanTrue
    | Text(text: string)
    | Bytes(data: seq<uint8>)

  type Query = map<QueryKey, AttributeValue>

  /** The address of one stored item. */
  datatype Slot = Slot(service: Option<string>, account: Option<string>, accessGroup: Option<string>)

  function TextAttribute(query: Query, key: QueryKey): Option<string> {
    if key in query && query[key].Text? then Some(query[key].text) else None
  }

  /** The slot a query addresses. */
  function SlotOf(query: Query): Slot {
    Slot(TextAttribute(query, AttrService), TextAttribute(query, AttrAccount), TextAttribute(query, AttrAccessGroup))
  }

  predicate Requests(query: Query, key: QueryKey) {
    key in query && query[key] == Flag(true)
  }

  /** The `kSecValueData` bytes of a query or an attribute dictionary, if any. */
  function ValueDataOf(query: Query): Option<seq<uint8>> {
    if ValueData in query && query[ValueData].Bytes? then Some(query[ValueData].data) else None
  }

  /** What `SecItemCopyMatching` hands back through its result argument. */
  datatype Returned =
    | DataObject(data: seq<uint8>)
    | AttributesObject(attributes: Query)

  /**
   * The object a successful `SecItemCopyMatching` returns for a stored item:
   * an attribute dictionary when `kSecReturnAttributes` is set (holding the
   * data when `kSecReturnData` is also set), the bare data when only
   * `kSecReturnData` is set, and nothing otherwise.
   */
  function ReturnedFor(query: Query, data: seq<uint8>): Option<Returned> {
    if Requests(query, ReturnAttributes) then
      Some(AttributesObject(if Requests(query, ReturnData) then map[ValueData := Bytes(data)] else map[]))
    else if Requests(query, ReturnData) then
      Some(DataObject(data))
    else
      None
  }

  /** One call into the store, with the status it answered. */
  datatype Call =
    | CopyMatchingCall(query: Query, status: OSStatus, result: Option<Returned>)
    | AddCall(query: Query, status: OSStatus)
    | UpdateCall(query: Query, attributes: Query, status: OSStatus)
    | DeleteCall(query: Query, status: OSStatus)

  class SecItemStore {
    var items: map<Slot, seq<uint8>>
    /** Whether the store answers every call from its contents. */
    ghost const reliable: bool
    /** Every call made so far, oldest first. */
    ghost var calls: seq<Call>

    constructor (contents: map<Slot, seq<uint8>>, reliable: bool)
      ensures items == contents && this.reliable == reliable && calls == []
    {
      items := contents;
      this.reliable := reliable;
      calls := [];
    }

    /** `SecItemCopyMatching`. */
    method CopyMatching(query: Query) returns (status: OSStatus, result: Option<Returned>)
      modifies this`calls
      ensures calls == old(calls) + [CopyMatchingCall(query, status, result)]
      ensures status == errSecSuccess ==> SlotOf(query) in items && result == ReturnedFor(query, items[SlotOf(query)])
      ensures status == errSecItemNotFound ==> SlotOf(query) !in items
      ensures status != errSecSuccess ==> result == None
      ensures reliable ==> status == if SlotOf(query) in items then errSecSuccess else errSecItemNotFound
    {
      var slot := SlotOf(query);
      if slot in items {
        status, result := errSecSuccess, ReturnedFor(query, items[slot]);
      } else {
        status, result := errSecItemNotFound, None;
      }
      calls := calls + [CopyMatchingCall(query, status, result)];
    }

    /** `SecItemAdd`: stores the query's `kSecValueData` in a slot that must be empty. */
    method Add(query: Query) returns (status: OSStatus)
      modifies this
      ensures calls == old(calls) + [AddCall(query, status)]
      ensures status == errSecSuccess ==>
        SlotOf(query) !in old(items) && items == old(items)[SlotOf(query) := ValueDataOf(query).GetOr([])]
      ensures status != errSecSuccess ==> items == old(items)
      ensures reliable ==> status == if SlotOf(query) in old(items) then errSecDuplicateItem else errSecSuccess
    {
      var slot := SlotOf(query);
      if slot in items {
        status := errSecDuplicateItem;
      } else {
        status := errSecSuccess;
        items := items[slot := ValueDataOf(query).GetOr([])];
      }
      calls := calls + [AddCall(query, status)];
    }

    /** `SecItemUpdate`: replaces the data of an existing item when `attributes` has some. */
    method Update(query: Query, attributes: Query) returns (status: OSStatus)
      modifies this
      ensures calls == old(calls) + [UpdateCall(query, attributes, status)]
      ensures status == errSecSuccess ==>
        SlotOf(query) in old(items) &&
        items == old(items)[SlotOf(query) := ValueDataOf(attributes).GetOr(old(items)[SlotOf(query)])]
      ensures status == errSecItemNotFound ==> SlotOf(query) !in old(items)
      ensures status != errSecSuccess ==> items == old(items)
      ensures reliable ==> status == if SlotOf(query) in old(items) then errSecSuccess else errSecItemNotFound
    {
      var slot := SlotOf(query);
      if slot in items {
        status := errSecSuccess;
        items := items[slot := ValueDataOf(attributes).GetOr(items[slot])];
      } else {
        status := errSecItemNotFound;
      }
      calls := calls + [UpdateCall(query, attributes, status)];
    }

    /** `SecItemDelete`. */
    method Delete(query: Query) returns (status: OSStatus)
      modifies this
      ensures calls == old(calls) + [DeleteCall(query, status)]
      ensures status == errSecSuccess ==> SlotOf(query) in old(items) && items == old(items) - {SlotOf(query)}
      ensures status == errSecItemNotFound ==> SlotOf(query) !in old(items)
      ensures status != errSecSuccess ==> items == old(items)
      ensures reliable ==> status == if SlotOf(query) in old(items) then errSecSuccess else errSecItemNotFound
    {
      var slot := SlotOf(query);
      if slot in items {
        status := errSecSuccess;
        items := items - {slot};
      } else {
        status := errSecItemNotFound;
      }
      calls := calls + [DeleteCall(query, status)];
    }
  }
}
