/** Device information and its cache (`bacpypes/app/deviceinfo.py`): what an I-Am told us
  * about a peer, kept under the peer's device instance and under its address, with a
  * reference count held by the transactions that use it. */
module DeviceInfos {
  import opened Wrappers
  import opened Addresses

  /** The four values of the Segmentation enumeration (ASHRAE 135 clause 21). */
  datatype Segmentation = SegmentedBoth | SegmentedTransmit | SegmentedReceive | NoSegmentation

  predicate ReceivesSegments(s: Segmentation) { s == SegmentedReceive || s == SegmentedBoth }
  predicate TransmitsSegments(s: Segmentation) { s == SegmentedTransmit || s == SegmentedBoth }

  /** `DeviceInfo`: the fields an I-Am (and later traffic) fill in. */
  datatype DeviceInfo = DeviceInfo(
    deviceIdentifier: int,
    address: Address,
    maxApduLengthAccepted: nat,
    segmentationSupported: Segmentation,
    maxSegmentsAccepted: Option<nat>,
    vendorID: Option<nat>,
    maxNpduLength: Option<nat>)

  /** A new record: 1024-octet APDUs, no segmentation, the rest unknown. */
  function NewDeviceInfo(id: int, address: Address): DeviceInfo
  {
    DeviceInfo(id, address, 1024, NoSegmentation, None, None, None)
  }

  /** A record object as the cache sees it: the information, the `_ref_count` attribute and
    * the `_cache_keys` attribute (both absent until the record has been through
    * `update_device_info`). */
  datatype Record = Record(info: DeviceInfo, refCount: Option<nat>, cacheId: Option<int>, cacheAddress: Option<Address>)

  /** The cache dictionary is keyed by device instances and by addresses. */
  datatype Key = IdKey(id: int) | AddressKey(address: Address)

  /** What `acquire` may be called with: an int, an `Address`, or anything else. */
  datatype Lookup = ByInt(i: int) | ByAddress(a: Address) | ByOther

  /** What `iam_device_info` may be called with: an I-Am, or any other APDU. */
  datatype Announcement =
    | IAmRequest(deviceInstance: int, pduSource: Address, maxAPDULengthAccepted: nat,
                 segmentationSupported: Segmentation, vendorID: nat)
    | OtherApdu

  /** The key a cached identifier or address stands for. */
  function IdKeyOf(id: Option<int>): Option<Key> { if id.Some? then Some(IdKey(id.value)) else None }
  function AddressKeyOf(a: Option<Address>): Option<Key> { if a.Some? then Some(AddressKey(a.value)) else None }

  /** One re-keying step of `update_device_info`: when the record was cached under `oldKey`
    * and its value has changed to `newKey`, the old entry is deleted (a KeyError when it is
    * no longer there) and the record is entered under the new one. */
  function Rekey(c: map<Key, nat>, oldKey: Option<Key>, newKey: Key, ref: nat): (r: Result<map<Key, nat>>)
    ensures r.Err? <==> oldKey.Some? && oldKey.value != newKey && oldKey.value !in c
    ensures r.Err? ==> r.error == KeyError
    ensures r.Ok? && (oldKey.None? || oldKey.value == newKey) ==> r.value == c
    ensures r.Ok? && oldKey.Some? && oldKey.value != newKey ==>
      r.value.Keys == c.Keys - {oldKey.value} + {newKey} && r.value[newKey] == ref &&
      forall k :: k in c && k != oldKey.value && k != newKey ==> r.value[k] == c[k]
  {
    if oldKey.None? || oldKey.value == newKey then Ok(c)
    else if oldKey.value !in c then Err(KeyError)
    else Ok((c - {oldKey.value})[newKey := ref])
  }

  /** The re-keying step as evidently intended: a record that has never been cached is
    * entered under its key. */
  function Enter(c: map<Key, nat>, oldKey: Option<Key>, newKey: Key, ref: nat): (r: Result<map<Key, nat>>)
    ensures oldKey.None? ==> r == Ok(c[newKey := ref])
    ensures oldKey.Some? ==> r == Rekey(c, oldKey, newKey, ref)
  {
    if oldKey.None? then Ok(c[newKey := ref]) else Rekey(c, oldKey, newKey, ref)
  }

  /** Every entry of `c` names a record of `records` that has a reference count. */
  ghost predicate Entries(c: map<Key, nat>, records: seq<Record>)
  {
    forall k :: k in c ==> c[k] < |records| && records[c[k]].refCount.Some?
  }

  lemma RekeyKeepsEntries(c: map<Key, nat>, oldKey: Option<Key>, newKey: Key, ref: nat, records: seq<Record>)
    requires Entries(c, records) && ref < |records| && records[ref].refCount.Some?
    requires Rekey(c, oldKey, newKey, ref).Ok?
    ensures Entries(Rekey(c, oldKey, newKey, ref).value, records)
  {
  }

  lemma EnterKeepsEntries(c: map<Key, nat>, oldKey: Option<Key>, newKey: Key, ref: nat, records: seq<Record>)
    requires Entries(c, records) && ref < |records| && records[ref].refCount.Some?
    requires Enter(c, oldKey, newKey, ref).Ok?
    ensures Entries(Enter(c, oldKey, newKey, ref).value, records)
  {
    if oldKey.Some? {
      RekeyKeepsEntries(c, oldKey, newKey, ref, records);
    }
  }

  lemma ReplaceKeepsEntries(c: map<Key, nat>, records: seq<Record>, ref: nat, rec: Record)
    requires Entries(c, records) && ref < |records| && rec.refCount.Some?
    ensures Entries(c, records[ref := rec])
  {
  }

  class DeviceInfoCache {
    /** `cache`: key to record; records are shared, so an entry holds the record's index. */
    var cache: map<Key, nat>
    /** Every record object made so far, cached or not. */
    var records: seq<Record>

    ghost predicate Valid()
      reads this
    {
      Entries(cache, records)
    }

    constructor ()
      ensures Valid() && cache == map[] && records == []
    {
      cache := map[];
      records := [];
    }

    /** `has_device_info`. */
    predicate HasDeviceInfo(key: Key)
      reads this
    {
      key in cache
    }

    /** `get_device_info`: the record under `key`, if any. */
    function GetDeviceInfo(key: Key): Option<nat>
      reads this
    {
      if key in cache then Some(cache[key]) else None
    }

    /** `update_device_info` as written: the record gets a reference count if it had none; an
      * identifier or address that changed since it was last cached is re-keyed; its current
      * keys are remembered. A record never cached before is not entered in the cache. */
    method UpdateDeviceInfoAsWritten(ref: nat) returns (r: Result<()>)
      requires Valid() && ref < |records|
      modifies this
      ensures Valid() && |records| == |old(records)|
      ensures forall i :: 0 <= i < |records| && i != ref ==> records[i] == old(records[i])
      ensures records[ref].info == old(records[ref].info)
      ensures records[ref].refCount == Some(if old(records[ref].refCount).Some? then old(records[ref].refCount.value) else 0)
      ensures var rec := old(records[ref]);
        var s1 := Rekey(old(cache), IdKeyOf(rec.cacheId), IdKey(rec.info.deviceIdentifier), ref);
        if s1.Err? then r == Err(KeyError) && cache == old(cache)
        else
          var s2 := Rekey(s1.value, AddressKeyOf(rec.cacheAddress), AddressKey(rec.info.address), ref);
          if s2.Err? then r == Err(KeyError) && cache == s1.value
          else r == Ok(()) && cache == s2.value
      ensures r.Ok? ==> records[ref].cacheId == Some(records[ref].info.deviceIdentifier) &&
                        records[ref].cacheAddress == Some(records[ref].info.address)
      ensures r.Err? ==> records[ref].cacheId == old(records[ref].cacheId) &&
                         records[ref].cacheAddress == old(records[ref].cacheAddress)
    {
      var rec := records[ref];
      if rec.refCount.None? {
        rec := rec.(refCount := Some(0));
        ReplaceKeepsEntries(cache, records, ref, rec);
        records := records[ref := rec];
      }
      var s1 := Rekey(cache, IdKeyOf(rec.cacheId), IdKey(rec.info.deviceIdentifier), ref);
      if s1.Err? {
        return Err(KeyError);
      }
      RekeyKeepsEntries(cache, IdKeyOf(rec.cacheId), IdKey(rec.info.deviceIdentifier), ref, records);
      cache := s1.value;
      var s2 := Rekey(cache, AddressKeyOf(rec.cacheAddress), AddressKey(rec.info.address), ref);
      if s2.Err? {
        return Err(KeyError);
      }
      RekeyKeepsEntries(cache, AddressKeyOf(rec.cacheAddress), AddressKey(rec.info.address), ref, records);
      cache := s2.value;
      ReplaceKeepsEntries(cache, records, ref, rec.(cacheId := Some(rec.info.deviceIdentifier), cacheAddress := Some(rec.info.address)));
      records := records[ref := rec.(cacheId := Some(rec.info.deviceIdentifier), cacheAddress := Some(rec.info.address))];
      r := Ok(());
    }

    /** `update_device_info` as its callers need it: the same, except that a record that
      * has never been cached is entered under its identifier and its address. */
    method UpdateDeviceInfo(ref: nat) returns (r: Result<()>)
      requires Valid() && ref < |records|
      modifies this
      ensures Valid() && |records| == |old(records)|
      ensures forall i :: 0 <= i < |records| && i != ref ==> records[i] == old(records[i])
      ensures records[ref].info == old(records[ref].info)
      ensures records[ref].refCount == Some(if old(records[ref].refCount).Some? then old(records[ref].refCount.value) else 0)
      ensures var rec := old(records[ref]);
        var s1 := Enter(old(cache), IdKeyOf(rec.cacheId), IdKey(rec.info.deviceIdentifier), ref);
        if s1.Err? then r == Err(KeyError) && cache == old(cache)
        else
          var s2 := Enter(s1.value, AddressKeyOf(rec.cacheAddress), AddressKey(rec.info.address), ref);
          if s2.Err? then r == Err(KeyError) && cache == s1.value
          else r == Ok(()) && cache == s2.value
      ensures r.Ok? ==> records[ref].cacheId == Some(records[ref].info.deviceIdentifier) &&
                        records[ref].cacheAddress == Some(records[ref].info.address)
      ensures r.Err? ==> records[ref].cacheId == old(records[ref].cacheId) &&
                         records[ref].cacheAddress == old(records[ref].cacheAddress)
    {
      var rec := records[ref];
      if rec.refCount.None? {
        rec := rec.(refCount := Some(0));
        ReplaceKeepsEntries(cache, records, ref, rec);
        records := records[ref := rec];
      }
      var s1 := Enter(cache, IdKeyOf(rec.cacheId), IdKey(rec.info.deviceIdentifier), ref);
      if s1.Err? {
        return Err(KeyError);
      }
      EnterKeepsEntries(cache, IdKeyOf(rec.cacheId), IdKey(rec.info.deviceIdentifier), ref, records);
      cache := s1.value;
      var s2 := Enter(cache, AddressKeyOf(rec.cacheAddress), AddressKey(rec.info.address), ref);
      if s2.Err? {
        return Err(KeyError);
      }
      EnterKeepsEntries(cache, AddressKeyOf(rec.cacheAddress), AddressKey(rec.info.address), ref, records);
      cache := s2.value;
      ReplaceKeepsEntries(cache, records, ref, rec.(cacheId := Some(rec.info.deviceIdentifier), cacheAddress := Some(rec.info.address)));
      records := records[ref := rec.(cacheId := Some(rec.info.deviceIdentifier), cacheAddress := Some(rec.info.address))];
      r := Ok(());
    }

    /** The first half of `iam_device_info`: the record cached under the instance, else the
      * one under the address, else a new record; the I-Am's values are jammed into it. */
    method JamIAm(deviceInstance: int, source: Address, maxApdu: nat, seg: Segmentation, vendorID: nat)
      returns (ref: nat)
      requires Valid()
      modifies this
      ensures Valid() && cache == old(cache) && ref < |records|
      ensures ref == (if IdKey(deviceInstance) in old(cache) then old(cache[IdKey(deviceInstance)])
                      else if AddressKey(source) in old(cache) then old(cache[AddressKey(source)])
                      else |old(records)|)
      ensures ref < |old(records)| ==>
        records == old(records)[ref := records[ref]] &&
        records[ref].refCount == old(records[ref].refCount) &&
        records[ref].cacheId == old(records[ref].cacheId) &&
        records[ref].cacheAddress == old(records[ref].cacheAddress) &&
        records[ref].info.maxSegmentsAccepted == old(records[ref].info.maxSegmentsAccepted) &&
        records[ref].info.maxNpduLength == old(records[ref].info.maxNpduLength)
      ensures ref == |old(records)| ==>
        records == old(records) + [records[ref]] &&
        records[ref] == Record(DeviceInfo(deviceInstance, source, maxApdu, seg, None, Some(vendorID), None), None, None, None)
      ensures records[ref].info.deviceIdentifier == deviceInstance && records[ref].info.address == source &&
        records[ref].info.maxApduLengthAccepted == maxApdu &&
        records[ref].info.segmentationSupported == seg && records[ref].info.vendorID == Some(vendorID)
    {
      if IdKey(deviceInstance) in cache {
        ref := cache[IdKey(deviceInstance)];
      } else if AddressKey(source) in cache {
        ref := cache[AddressKey(source)];
      } else {
        ref := |records|;
        records := records + [Record(NewDeviceInfo(deviceInstance, source), None, None, None)];
      }
      var rec := records[ref];
      var info := rec.info.(deviceIdentifier := deviceInstance, address := source,
        maxApduLengthAccepted := maxApdu, segmentationSupported := seg, vendorID := Some(vendorID));
      records := records[ref := rec.(info := info)];
    }

    /** `iam_device_info` as written: anything but an I-Am is a ValueError; otherwise the
      * record is found or made and updated. A device the cache does not know yet is never
      * entered in it. */
    method IamDeviceInfoAsWritten(apdu: Announcement) returns (r: Result<()>)
      requires Valid()
      modifies this
      ensures Valid()
      ensures apdu.OtherApdu? ==> r == Err(ValueError) && cache == old(cache) && records == old(records)
      ensures apdu.IAmRequest? && IdKey(apdu.deviceInstance) !in old(cache) && AddressKey(apdu.pduSource) !in old(cache) ==>
        r == Ok(()) && cache == old(cache) && |records| == |old(records)| + 1
      ensures apdu.IAmRequest? ==> Copied(apdu, old(cache))
    {
      if apdu.OtherApdu? {
        return Err(ValueError);
      }
      var ref := JamIAm(apdu.deviceInstance, apdu.pduSource, apdu.maxAPDULengthAccepted,
                        apdu.segmentationSupported, apdu.vendorID);
      r := UpdateDeviceInfoAsWritten(ref);
    }

    /** `iam_device_info` as evidently intended: anything but an I-Am is a ValueError; a
      * device the cache does not know yet is entered under its instance and its address,
      * with the I-Am's four values and a reference count of zero. */
    method IamDeviceInfo(apdu: Announcement) returns (r: Result<()>)
      requires Valid()
      modifies this
      ensures Valid()
      ensures apdu.OtherApdu? ==> r == Err(ValueError) && cache == old(cache) && records == old(records)
      ensures apdu.IAmRequest? && IdKey(apdu.deviceInstance) !in old(cache) && AddressKey(apdu.pduSource) !in old(cache) ==>
        r == Ok(()) && |records| == |old(records)| + 1 &&
        var ref := |old(records)|;
        cache == old(cache)[IdKey(apdu.deviceInstance) := ref][AddressKey(apdu.pduSource) := ref] &&
        records[ref] == Record(DeviceInfo(apdu.deviceInstance, apdu.pduSource, apdu.maxAPDULengthAccepted,
                                          apdu.segmentationSupported, None, Some(apdu.vendorID), None),
                               Some(0), Some(apdu.deviceInstance), Some(apdu.pduSource))
      ensures apdu.IAmRequest? ==> Copied(apdu, old(cache))
    {
      if apdu.OtherApdu? {
        return Err(ValueError);
      }
      var ref := JamIAm(apdu.deviceInstance, apdu.pduSource, apdu.maxAPDULengthAccepted,
                        apdu.segmentationSupported, apdu.vendorID);
      r := UpdateDeviceInfo(ref);
    }

    /** The record an I-Am for a device the cache knows goes to (the one under its instance,
      * else the one under its address) carries the I-Am's instance, address, maximum APDU
      * length, segmentation and vendor. */
    ghost predicate Copied(apdu: Announcement, before: map<Key, nat>)
      requires apdu.IAmRequest?
      reads this
    {
      var k := if IdKey(apdu.deviceInstance) in before then IdKey(apdu.deviceInstance) else AddressKey(apdu.pduSource);
      k in before ==>
        before[k] < |records| &&
        var info := records[before[k]].info;
        info.deviceIdentifier == apdu.deviceInstance && info.address == apdu.pduSource &&
        info.maxApduLengthAccepted == apdu.maxAPDULengthAccepted &&
        info.segmentationSupported == apdu.segmentationSupported && info.vendorID == Some(apdu.vendorID)
    }

    /** `acquire`: an int is looked up as a device instance and a station address as an
      * address; any other address, or any other key, is a TypeError. A record found has
      * its reference count incremented. */
    method Acquire(key: Lookup) returns (r: Result<Option<nat>>)
      requires Valid()
      modifies this
      ensures Valid() && cache == old(cache)
      ensures key.ByOther? ==> r == Err(TypeError)
      ensures key.ByAddress? && !IsStation(key.a) ==> r == Err(TypeError)
      ensures key.ByInt? ==> r == Ok(old(GetDeviceInfo(IdKey(key.i))))
      ensures key.ByAddress? && IsStation(key.a) ==> r == Ok(old(GetDeviceInfo(AddressKey(key.a))))
      ensures r.Ok? && r.value.Some? ==> var i := r.value.value;
        i < |old(records)| && old(records[i].refCount).Some? && records == Acquired(old(records), i)
      ensures r.Err? || r.value.None? ==> records == old(records)
    {
      var found: Option<nat>;
      match key {
        case ByInt(i) =>
          found := GetDeviceInfo(IdKey(i));
        case ByOther =>
          return Err(TypeError);
        case ByAddress(a) =>
          if !IsStation(a) {
            return Err(TypeError);
          }
          found := GetDeviceInfo(AddressKey(a));
      }
      if found.Some? {
        var rec := records[found.value];
        records := records[found.value := rec.(refCount := Some(rec.refCount.value + 1))];
      }
      r := Ok(found);
    }

    /** `release`: a count already at zero is a RuntimeError; otherwise it is decremented.
      * A record that never had a count raises AttributeError. */
    method Release(ref: nat) returns (r: Result<()>)
      requires Valid() && ref < |records|
      modifies this
      ensures Valid() && cache == old(cache)
      ensures old(records[ref].refCount).None? ==> r == Err(AttributeError) && records == old(records)
      ensures old(records[ref].refCount) == Some(0) ==> r == Err(RuntimeError) && records == old(records)
      ensures old(records[ref].refCount).Some? && old(records[ref].refCount.value) > 0 ==>
        r == Ok(()) && records == old(records)[ref := old(records[ref]).(refCount := Some(old(records[ref].refCount.value) - 1))]
      ensures (r, records) == ReleaseStep(old(records), ref)
    {
      var rec := records[ref];
      if rec.refCount.None? {
        return Err(AttributeError);
      }
      if rec.refCount.value == 0 {
        return Err(RuntimeError);
      }
      records := records[ref := rec.(refCount := Some(rec.refCount.value - 1))];
      r := Ok(());
    }
  }

  /** The records after `acquire` found record `i`: its count is one higher. */
  function Acquired(records: seq<Record>, i: nat): seq<Record>
    requires i < |records| && records[i].refCount.Some?
  {
    records[i := records[i].(refCount := Some(records[i].refCount.value + 1))]
  }

  /** What `release` of record `i` raises, and the records after it. */
  function ReleaseStep(records: seq<Record>, i: nat): (Result<()>, seq<Record>)
    requires i < |records|
  {
    if records[i].refCount.None? then (Err(AttributeError), records)
    else if records[i].refCount.value == 0 then (Err(RuntimeError), records)
    else (Ok(()), records[i := records[i].(refCount := Some(records[i].refCount.value - 1))])
  }

  /** Acquiring a record and releasing it again succeeds and leaves every reference count
    * as it was. */
  lemma AcquireReleaseBalance(records: seq<Record>, i: nat)
    requires i < |records| && records[i].refCount.Some?
    ensures ReleaseStep(Acquired(records, i), i) == (Ok(()), records)
  {
    var up := Acquired(records, i);
    var down := up[i := up[i].(refCount := Some(up[i].refCount.value - 1))];
    assert down[i] == records[i];
    assert down == records;
  }
}
